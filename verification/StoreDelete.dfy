/** What `Store.Delete` removes: the least set that holds the target and is closed under two rules. */
module StoreDelete {
  import opened Content
  import opened GraphMemory
  import opened Layout
  import opened Resolver

  predicate RefersTo(files: Files, k: Key, m: Key) {
    Subject(files, k) == Ok(Some(m))
  }

  /** The state of a store as values. */
  datatype View = View(nodes: set<Key>, succ: map<Key, set<Key>>, files: Files,
                       index: map<string, Descriptor>, tags: map<Digest, set<string>>)

  predicate Tagged(v: View, k: Key) {
    TagSetIsTag(TagsOf(v.tags, k.digest), k.digest)
  }

  /** `k` is a manifest whose subject is the manifest `m`. */
  predicate Referrer(v: View, k: Key, m: Key) {
    IsManifest(m.mediaType) && k in Sources(v.succ, m) && RefersTo(v.files, k, m)
  }

  /** `k` had predecessors, all of them are in `gone`, and no tag keeps it. */
  predicate Orphaned(v: View, gone: set<Key>, k: Key) {
    k in v.nodes && Sources(v.succ, k) != {} && Sources(v.succ, k) <= gone && !Tagged(v, k)
  }

  ghost predicate Drawn(v: View, gone: set<Key>, k: Key) {
    Orphaned(v, gone, k) || exists m :: m in gone && Referrer(v, k, m)
  }

  /** `k` points to `m` in the graph, and its stored manifest names `m` as its subject. */
  predicate RefersInStore(v: View, k: Key, m: Key) {
    k in v.succ && m in v.succ[k] && NamesSubject(v.files, k, m)
  }

  /** A node that something points to, only removed nodes do, and no reference but its digest is recorded for it. */
  ghost predicate LeftAlone(v: View, gone: set<Key>, k: Key) {
    && k in v.nodes && (exists p :: p in v.succ && k in v.succ[p])
    && (forall p :: p in v.succ && k in v.succ[p] ==> p in gone)
    && TagsOf(v.tags, k.digest) <= {k.digest}
  }

  /** What is drawn along, in terms of the graph, the stored manifests and the tag sets. */
  lemma DrawnExactly(v: View, gone: set<Key>, k: Key)
    ensures Drawn(v, gone, k) <==>
      LeftAlone(v, gone, k) || exists m :: m in gone && IsManifest(m.mediaType) && RefersInStore(v, k, m)
  {
    TagSetMeaning(TagsOf(v.tags, k.digest), k.digest);
    assert Orphaned(v, gone, k) <==> LeftAlone(v, gone, k) by {
      assert forall p :: p in Sources(v.succ, k) <==> p in v.succ && k in v.succ[p];
      assert Sources(v.succ, k) != {} <==> exists p :: p in Sources(v.succ, k);
    }
    forall m
      ensures Referrer(v, k, m) <==> IsManifest(m.mediaType) && RefersInStore(v, k, m)
    {
      SubjectIsNamed(v.files, k, m);
    }
  }

  /** Removing `gone` draws nothing else along. */
  ghost predicate Complete(v: View, gone: set<Key>) {
    forall k :: Drawn(v, gone, k) ==> k in gone
  }

  /** Every complete set with the target contains `gone`. */
  ghost predicate Needed(v: View, target: Key, gone: set<Key>) {
    forall s {:trigger Complete(v, s)} :: target in s && Complete(v, s) ==> gone <= s
  }

  /** Each of `s`, apart from the target, has been drawn along by `gone`. */
  ghost predicate Reasons(v: View, target: Key, gone: set<Key>, s: set<Key>) {
    forall k {:trigger Drawn(v, gone, k)} :: k in s ==> k == target || Drawn(v, gone, k)
  }

  /** The nodes of the graph and the target. */
  function Everything(v: View, target: Key): set<Key> {
    v.nodes + v.succ.Keys + {target}
  }

  ghost predicate InEvery(v: View, target: Key, k: Key) {
    forall s {:trigger Complete(v, s)} :: target in s && Complete(v, s) ==> k in s
  }

  /** The least complete set with the target: what a deletion is to remove. */
  ghost function Doomed(v: View, target: Key): set<Key> {
    set k | k in Everything(v, target) && InEvery(v, target, k)
  }

  /** No reference gives the digest of a node to content with another key. */
  ghost predicate DigestsIdentify(v: View) {
    forall k, ref :: k in v.nodes && ref in v.index && v.index[ref].digest == k.digest ==> KeyOf(v.index[ref]) == k
  }

  function Without(index: map<string, Descriptor>, gone: set<Key>): map<string, Descriptor> {
    map ref | ref in index && KeyOf(index[ref]) !in gone :: index[ref]
  }

  /** `w` is `v` after `gone` has been taken out of the graph and the index. */
  ghost predicate Taken(v: View, w: View, gone: set<Key>) {
    && w.nodes == v.nodes - gone
    && w.succ == v.succ - gone
    && w.index == Without(v.index, gone)
    && (forall d :: d in w.files ==> d in v.files && w.files[d] == v.files[d])
    && (forall d {:trigger TagsShrink(v, w, d)} :: TagsShrink(v, w, d))
    && (DigestsIdentify(v) ==> forall k {:trigger TagsKept(v, w, k)} :: TagsKept(v, w, k))
  }

  predicate TagsShrink(v: View, w: View, d: Digest) {
    TagsOf(w.tags, d) <= TagsOf(v.tags, d)
  }

  /** The tag set of a node that is still there. */
  predicate TagsKept(v: View, w: View, k: Key) {
    k in w.nodes ==> TagsOf(w.tags, k.digest) == TagsOf(v.tags, k.digest)
  }

  function Digests(keys: set<Key>): set<Digest> {
    set k | k in keys :: k.digest
  }

  // ----- one step of the queue -----

  lemma FewerTags(small: set<string>, large: set<string>, d: Digest)
    requires small <= large && TagSetIsTag(small, d)
    ensures TagSetIsTag(large, d)
  {
    TagSetMeaning(small, d);
    TagSetMeaning(large, d);
  }

  lemma SourcesLeft(succ: map<Key, set<Key>>, gone: set<Key>, s: Key)
    ensures Sources(succ - gone, s) == Sources(succ, s) - gone
  {
  }

  /** What the current state says about referrers is what the initial state said. */
  lemma SameReferrer(v: View, w: View, gone: set<Key>, k: Key, m: Key)
    requires Taken(v, w, gone) && Referrer(w, k, m)
    ensures Referrer(v, k, m)
  {
    SourcesLeft(v.succ, gone, m);
  }

  /** `k` loses its last predecessor with `head`, before (`w`) and after (`w'`) the removal, and no tag keeps it. */
  predicate Dangling(w: View, w': View, head: Key, k: Key) {
    k in w.nodes && Sources(w.succ, k) == {head} && !Tagged(w', k)
  }

  /** What one pass of the loop appends to the queue when it removes `head`. */
  predicate Queued(w: View, w': View, head: Key, k: Key) {
    Referrer(w, k, head) || Dangling(w, w', head, k)
  }

  /** What is queued has been drawn along by what is removed. */
  lemma QueuedIsDrawn(v: View, w: View, w': View, gone: set<Key>, head: Key, k: Key)
    requires Taken(v, w, gone) && Taken(v, w', gone + {head}) && DigestsIdentify(v) && Queued(w, w', head, k)
    requires k != head
    ensures Drawn(v, gone + {head}, k)
  {
    if Referrer(w, k, head) {
      SameReferrer(v, w, gone, k, head);
    } else {
      SourcesLeft(v.succ, gone, k);
      assert head in Sources(v.succ, k);
      assert TagsKept(v, w', k);
      assert Orphaned(v, gone + {head}, k);
    }
  }

  /** What the removal of `head` newly draws along is queued. */
  lemma OneQueued(v: View, w: View, w': View, gone: set<Key>, head: Key, k: Key)
    requires Taken(v, w, gone) && Taken(v, w', gone + {head})
    requires Drawn(v, gone + {head}, k) && !Drawn(v, gone, k) && k !in gone
    requires IsManifest(head.mediaType) ==> Readable(w, head)
    ensures Queued(w, w', head, k)
  {
    SourcesLeft(v.succ, gone, k);
    if Orphaned(v, gone + {head}, k) {
      assert head in Sources(v.succ, k) && head !in gone;
      assert Sources(w.succ, k) == {head};
      if Tagged(w', k) {
        assert TagsShrink(v, w', k.digest);
        FewerTags(TagsOf(w'.tags, k.digest), TagsOf(v.tags, k.digest), k.digest);
      }
    } else {
      var m :| m in gone + {head} && Referrer(v, k, m);
      assert m == head;
      SourcesLeft(v.succ, gone, head);
      assert k in Sources(w.succ, head);
      assert FetchJson(w.files, k) == FetchJson(v.files, k);
    }
  }

  /** All predecessors of `head` that can carry a subject can be read. */
  ghost predicate Readable(w: View, head: Key) {
    forall p :: p in Sources(w.succ, head) && HasSubjectField(p.mediaType) ==> FetchJson(w.files, p).Ok?
  }

  /** What `gone` draws along is in `gone` or waits in the queue. */
  ghost predicate Awaited(v: View, gone: set<Key>, queue: set<Key>) {
    forall k :: Drawn(v, gone, k) ==> k in gone || k in queue
  }

  lemma StepNeeded(v: View, w: View, w': View, target: Key, gone: set<Key>, head: Key, queue: set<Key>, added: set<Key>)
    requires Taken(v, w, gone) && Taken(v, w', gone + {head}) && DigestsIdentify(v)
    requires Needed(v, target, gone + {head} + queue) && forall k :: k in added ==> Queued(w, w', head, k)
    ensures Needed(v, target, gone + {head} + (queue + added))
  {
    forall s | target in s && Complete(v, s)
      ensures gone + {head} + (queue + added) <= s
    {
      assert gone + {head} + queue <= s;
      forall k | k in added && k != head
        ensures k in s
      {
        QueuedIsDrawn(v, w, w', gone, head, k);
        DrawnMonotone(v, gone + {head}, s, k);
      }
    }
  }

  /** Whatever is removed or queued, at any time, has been drawn along by what has been removed. */
  lemma StepReasons(v: View, w: View, w': View, target: Key, gone: set<Key>, head: Key, queue: set<Key>,
                    added: set<Key>)
    requires Taken(v, w, gone) && Taken(v, w', gone + {head}) && DigestsIdentify(v)
    requires Reasons(v, target, gone, gone + {head} + queue) && forall k :: k in added ==> Queued(w, w', head, k)
    ensures Reasons(v, target, gone + {head}, gone + {head} + (queue + added))
  {
    forall k | k in gone + {head} + (queue + added) && k != target
      ensures Drawn(v, gone + {head}, k)
    {
      if k in gone + {head} + queue {
        assert Drawn(v, gone, k);
        DrawnMonotone(v, gone, gone + {head}, k);
      } else {
        QueuedIsDrawn(v, w, w', gone, head, k);
      }
    }
  }

  lemma StepAwaited(v: View, w: View, w': View, gone: set<Key>, head: Key, queue: set<Key>, added: set<Key>)
    requires Taken(v, w, gone) && Taken(v, w', gone + {head})
    requires IsManifest(head.mediaType) ==> Readable(w, head)
    requires Awaited(v, gone, {head} + queue) && forall k :: Queued(w, w', head, k) ==> k in added
    ensures Awaited(v, gone + {head}, queue + added)
  {
    forall k | Drawn(v, gone + {head}, k)
      ensures k in gone + {head} || k in queue + added
    {
      if !Drawn(v, gone, k) && k !in gone {
        OneQueued(v, w, w', gone, head, k);
      }
    }
  }

  /** The referrers of `head`, each once, in any order. */
  ghost predicate ReferrerList(w: View, head: Key, ks: seq<Key>) {
    NoRepeats(ks) && forall k :: k in ks <==> Referrer(w, k, head)
  }

  /** The danglings of `head` without a tag, each once, in any order. */
  ghost predicate DanglingList(w: View, w': View, head: Key, ks: seq<Key>) {
    NoRepeats(ks) && forall k :: k in ks <==> Dangling(w, w', head, k)
  }

  /** What one pass appends, when it succeeds: first the referrers, then the danglings. */
  ghost predicate Appended(w: View, w': View, head: Key, added: seq<Key>, autoGC: bool) {
    if autoGC then
      exists n :: 0 <= n <= |added| && ReferrerList(w, head, added[..n]) && DanglingList(w, w', head, added[n..])
    else added == []
  }

  lemma AppendedIsQueued(w: View, w': View, head: Key, added: seq<Key>, k: Key)
    requires Appended(w, w', head, added, true)
    ensures k in added <==> Queued(w, w', head, k)
  {
    var n :| 0 <= n <= |added| && ReferrerList(w, head, added[..n]) && DanglingList(w, w', head, added[n..]);
    assert added == added[..n] + added[n..];
    assert k in added <==> k in added[..n] || k in added[n..];
  }

  /** The node cannot be processed: its blob is missing, or a predecessor that may refer to it cannot be read. */
  ghost predicate Obstacle(w: View, k: Key, autoGC: bool) {
    k.digest !in w.files || (autoGC && IsManifest(k.mediaType) && !Readable(w, k))
  }

  /** A pass that succeeds: it removes `head` with its blob and appends `added` to the queue. */
  ghost predicate Passes(w: View, head: Key, w': View, added: seq<Key>, autoGC: bool) {
    && !Obstacle(w, head, autoGC)
    && Taken(w, w', {head}) && w'.files == w.files - {head.digest}
    && Appended(w, w', head, added, autoGC)
  }

  /** Each of `keys` has a blob, and no two of them share one. */
  ghost predicate OwnBlobs(v: View, keys: set<Key>) {
    && (forall k :: k in keys ==> k.digest in v.files)
    && (forall j, k :: j in keys && k in keys && j.digest == k.digest ==> j == k)
  }

  /** The invariant of the deletion queue. */
  ghost predicate Run(v: View, w: View, target: Key, gone: set<Key>, queue: set<Key>, autoGC: bool) {
    && Taken(v, w, gone)
    && w.files == v.files - Digests(gone)
    && OwnBlobs(v, gone)
    && target in gone + queue
    && (if autoGC then Awaited(v, gone, queue) else gone + queue <= {target})
    && (DigestsIdentify(v) ==> Needed(v, target, gone + queue) && Reasons(v, target, gone, gone + queue))
  }

  lemma StartRun(v: View, queue: seq<Descriptor>, target: Descriptor, autoGC: bool)
    requires queue == [target]
    ensures Run(v, v, KeyOf(target), {}, SetOf(Keys(queue)), autoGC)
  {
    TakeNone(v);
    assert Keys(queue) == [KeyOf(target)];
    assert SetOf(Keys(queue)) == {KeyOf(target)};
    assert Digests({}) == {};
  }

  lemma StepRun(v: View, w: View, w': View, target: Key, gone: set<Key>, head: Key, queue: set<Key>, added: seq<Key>,
                autoGC: bool)
    requires Run(v, w, target, gone, {head} + queue, autoGC) && Passes(w, head, w', added, autoGC)
    ensures Run(v, w', target, gone + {head}, queue + SetOf(added), autoGC)
  {
    TakeMore(v, w, w', gone, {head});
    StepBlobs(v, gone, head);
    assert gone + ({head} + queue) == gone + {head} + queue;
    forall k | autoGC
      ensures k in SetOf(added) <==> Queued(w, w', head, k)
    {
      AppendedIsQueued(w, w', head, added, k);
    }
    if autoGC {
      StepAwaited(v, w, w', gone, head, queue, SetOf(added));
    }
    if DigestsIdentify(v) {
      StepNeeded(v, w, w', target, gone, head, queue, SetOf(added));
      StepReasons(v, w, w', target, gone, head, queue, SetOf(added));
    }
  }

  /** A node that is removed had a blob that none of those removed before it had. */
  lemma StepBlobs(v: View, gone: set<Key>, head: Key)
    requires OwnBlobs(v, gone) && head.digest in v.files - Digests(gone)
    ensures OwnBlobs(v, gone + {head}) && head !in gone && Digests(gone + {head}) == Digests(gone) + {head.digest}
  {
    assert forall k :: k in gone ==> k.digest in Digests(gone);
  }

  /** What holds when the queue is empty. */
  lemma EndRun(v: View, w: View, target: Key, gone: set<Key>, autoGC: bool)
    requires Run(v, w, target, gone, {}, autoGC)
    ensures Taken(v, w, gone) && target in gone && w.files == v.files - Digests(gone) && OwnBlobs(v, gone)
    ensures if autoGC then Complete(v, gone) else gone == {target}
    ensures DigestsIdentify(v) ==> Reasons(v, target, gone, gone)
    ensures DigestsIdentify(v) && autoGC ==> gone == Doomed(v, target)
  {
    assert gone + {} == gone;
    if DigestsIdentify(v) && autoGC {
      LeastIsDoomed(v, target, gone);
    }
  }

  /** What holds when a pass fails: at most its head has been taken out, and no blob. */
  lemma StopRun(v: View, w: View, w': View, target: Key, gone: set<Key>, head: Key, queue: set<Key>, autoGC: bool,
                part: set<Key>)
    requires Run(v, w, target, gone, {head} + queue, autoGC)
    requires part <= {head} && Taken(w, w', part) && w'.files == w.files
    ensures Taken(v, w', gone + part)
    ensures forall d :: d in v.files && d !in Digests(gone + part) ==> d in w'.files
    ensures !autoGC ==> gone + part <= {target}
    ensures DigestsIdentify(v) ==> Reasons(v, target, gone + part, gone + part) && gone + part <= Doomed(v, target)
  {
    assert Digests(gone) <= Digests(gone + part);
    TakeMore(v, w, w', gone, part);
    assert gone + part <= gone + ({head} + queue);
    if DigestsIdentify(v) {
      forall k | k in gone + part && k != target
        ensures Drawn(v, gone + part, k)
      {
        assert Drawn(v, gone, k);
        DrawnMonotone(v, gone, gone + part, k);
      }
      NeededIsDoomed(v, target, gone + ({head} + queue), gone + part);
    }
  }

  // ----- the least complete set -----

  /** What is drawn along is in the graph. */
  lemma DrawnIsKnown(v: View, target: Key, s: set<Key>, k: Key)
    requires Drawn(v, s, k)
    ensures k in Everything(v, target)
  {
  }

  /** It is complete, it holds the target, and every complete set with the target contains it. */
  lemma DoomedIsLeast(v: View, target: Key)
    ensures target in Doomed(v, target) && Complete(v, Doomed(v, target)) && Needed(v, target, Doomed(v, target))
  {
    var least := Doomed(v, target);
    forall k | Drawn(v, least, k)
      ensures k in least
    {
      DrawnIsKnown(v, target, least, k);
      forall s | target in s && Complete(v, s)
        ensures k in s
      {
        assert forall x :: x in least ==> InEvery(v, target, x);
        DrawnMonotone(v, least, s, k);
      }
    }
  }

  /** No other set is. */
  lemma LeastIsDoomed(v: View, target: Key, gone: set<Key>)
    requires target in gone && Complete(v, gone) && Needed(v, target, gone)
    ensures gone == Doomed(v, target)
  {
    DoomedIsLeast(v, target);
    assert gone <= Doomed(v, target) <= gone;
  }

  lemma NeededIsDoomed(v: View, target: Key, s: set<Key>, part: set<Key>)
    requires Needed(v, target, s) && part <= s
    ensures part <= Doomed(v, target)
  {
    DoomedIsLeast(v, target);
  }

  // ----- taking keys out -----

  lemma TakeMore(v: View, w: View, w': View, gone: set<Key>, more: set<Key>)
    requires Taken(v, w, gone) && Taken(w, w', more)
    ensures Taken(v, w', gone + more)
  {
    assert w'.succ == v.succ - (gone + more);
    WithoutTwice(v.index, gone, more);
    forall d
      ensures TagsShrink(v, w', d)
    {
      assert TagsShrink(v, w, d) && TagsShrink(w, w', d);
    }
    if DigestsIdentify(v) {
      assert DigestsIdentify(w);
      forall k
        ensures TagsKept(v, w', k)
      {
        assert TagsKept(v, w, k) && TagsKept(w, w', k);
      }
    }
  }

  lemma WithoutTwice(index: map<string, Descriptor>, a: set<Key>, b: set<Key>)
    ensures Without(Without(index, a), b) == Without(index, a + b)
  {
  }

  lemma TakeNone(v: View)
    ensures Taken(v, v, {})
  {
    assert v.nodes - {} == v.nodes;
    assert v.succ - {} == v.succ;
    assert Without(v.index, {}) == v.index;
  }

  // ----- what the removed set means -----

  lemma DrawnMonotone(v: View, small: set<Key>, large: set<Key>, k: Key)
    requires small <= large && Drawn(v, small, k)
    ensures Drawn(v, large, k)
  {
  }

  /** Besides the target, only orphans without a tag and referrers of removed manifests are to be removed. */
  lemma DoomedForAReason(v: View, target: Key)
    ensures Reasons(v, target, Doomed(v, target), Doomed(v, target))
  {
    var all := Doomed(v, target);
    DoomedIsLeast(v, target);
    forall k | k in all && k != target
      ensures Drawn(v, all, k)
    {
      if !Drawn(v, all, k) {
        var rest := all - {k};
        forall x | Drawn(v, rest, x)
          ensures x in rest
        {
          DrawnMonotone(v, rest, all, x);
        }
        assert Complete(v, rest);
        assert false;
      }
    }
  }

  /** Tagged content goes, if at all, as the target itself or because it refers to a removed manifest. */
  lemma TaggedStays(v: View, target: Key, gone: set<Key>, k: Key)
    requires Reasons(v, target, gone, gone)
    requires Tagged(v, k) && k != target && forall m :: m in gone ==> !Referrer(v, k, m)
    ensures k !in gone
  {
    assert !Drawn(v, gone, k);
  }

  /** No indexed node is left behind whose predecessors are all gone, unless a tag keeps it. */
  lemma NoGarbageLeft(v: View, w: View, gone: set<Key>, k: Key)
    requires Taken(v, w, gone) && Complete(v, gone)
    requires k in w.nodes && Sources(v.succ, k) != {} && Sources(w.succ, k) == {}
    ensures Tagged(v, k)
  {
    SourcesLeft(v.succ, gone, k);
    assert forall p :: p in Sources(v.succ, k) && p !in gone ==> p in Sources(w.succ, k);
    assert Orphaned(v, gone, k) ==> Drawn(v, gone, k);
  }

  /**
   What garbage collection on delete removes is garbage, whether or not the deletion succeeds: apart from the target
   and the referrers of removed manifests, a removed node had all its predecessors removed and no live tag.
   */
  lemma OnlyGarbageGoes(v: View, target: Key, gone: set<Key>, k: Key)
    requires Reasons(v, target, gone, gone) && Covered(v.index, v.tags)
    requires k in gone && k != target && forall m :: m in gone ==> !Referrer(v, k, m)
    ensures Sources(v.succ, k) <= gone
    ensures forall ref :: ref in v.index && v.index[ref].digest == k.digest ==> ref == k.digest
  {
    assert Drawn(v, gone, k);
    assert Orphaned(v, gone, k);
    TagSetMeaning(TagsOf(v.tags, k.digest), k.digest);
  }
}
