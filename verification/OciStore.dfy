/** The OCI layout store: tagging, and deletion with garbage collection of what the deletion leaves behind. */
module OciStore {
  import opened Content
  import opened Digraph
  import opened Layout
  import opened StoreDelete
  import opened DeleteOutcome
  import opened IndexFile
  import G = GraphMemory
  import R = Resolver
  import IndexAll
  import StoreGC
  import StoreLoad

  /** Deleting content keeps the conditions under which the index survives saving and loading. */
  lemma DeleteKeeps(m: RefMap, gone: set<Key>)
    requires StoreRefs(m) && Unambiguous(m)
    ensures StoreRefs(Without(m, gone)) && Unambiguous(Without(m, gone))
  {
    var m' := Without(m, gone);
    forall r
      ensures DigestKnown(m', r)
    {
      if r in m' {
        var d := m[r].digest;
        assert DigestKnown(m, r) && UnambiguousAt(m, d, r) && DigestIdentifies(m, d, r);
      }
    }
    forall r, q
      ensures DigestIdentifies(m', r, q) && UnambiguousAt(m', r, q)
    {
      assert DigestIdentifies(m, r, q) && UnambiguousAt(m, r, q);
    }
  }

  function QueueKeys(queue: seq<Descriptor>): set<Key> {
    SetOf(Keys(queue))
  }

  /** The danglings of a removed node, in terms of the graph before the removal. */
  lemma DanglingsAre(ds: seq<Descriptor>, nodes: map<Key, Descriptor>, succ: map<Key, set<Key>>,
                     pred: map<Key, set<Key>>, n: Key, s: Key)
    requires G.Inverted(succ, pred) && G.Danglings(ds, nodes, pred, Out(succ, n), n)
    ensures s in QueueKeys(ds) <==> s in nodes && G.Sources(succ, s) == {n}
  {
    assert G.DanglingAt(ds, nodes, pred, Out(succ, n), n, s);
    assert Out(pred, s) == G.Sources(succ, s);
    if G.Sources(succ, s) == {n} {
      assert n in G.Sources(succ, s);
    }
  }

  /**
   The filter of `Referrers` after the nodes in `done`: all could be read, and `results` are those that refer to `m`.
   */
  ghost predicate Filtered(files: Files, m: Key, done: seq<Key>, results: seq<Key>) {
    && (forall k :: k in results <==> k in done && RefersTo(files, k, m))
    && (forall p :: p in done && HasSubjectField(p.mediaType) ==> FetchJson(files, p).Ok?)
    && (NoRepeats(done) ==> NoRepeats(results))
  }

  lemma FilterKeys(files: Files, m: Key, done: seq<Key>, results: seq<Key>, k: Key)
    requires Filtered(files, m, done, results) && (HasSubjectField(k.mediaType) ==> Subject(files, k).Ok?)
    ensures Filtered(files, m, done + [k], if RefersTo(files, k, m) then results + [k] else results)
  {
    if NoRepeats(done + [k]) {
      LastOnce(done, k);
    }
  }

  lemma FilterOne(files: Files, m: Key, done: seq<Descriptor>, results: seq<Descriptor>, node: Descriptor)
    requires Filtered(files, m, Keys(done), Keys(results))
    requires HasSubjectField(node.mediaType) ==> Subject(files, KeyOf(node)).Ok?
    ensures var results' := if RefersTo(files, KeyOf(node), m) then results + [node] else results;
      Filtered(files, m, Keys(done + [node]), Keys(results'))
  {
    FilterKeys(files, m, Keys(done), Keys(results), KeyOf(node));
    KeysConcat(done, [node]);
    KeysConcat(results, [node]);
    assert Keys([node]) == [KeyOf(node)];
  }

  lemma LastOnce(front: seq<Key>, k: Key)
    requires NoRepeats(front + [k])
    ensures NoRepeats(front) && k !in front
  {
    var all := front + [k];
    assert all[|front|] == k && forall i :: 0 <= i < |front| ==> all[i] == front[i];
  }

  lemma FilteredAll(w: View, m: Key, predecessors: seq<Descriptor>, results: seq<Descriptor>)
    requires Filtered(w.files, m, Keys(predecessors), Keys(results))
    requires QueueKeys(predecessors) == G.Sources(w.succ, m) && IsManifest(m.mediaType)
    requires NoRepeats(Keys(predecessors))
    ensures ReferrerList(w, m, Keys(results)) && Readable(w, m)
  {
    assert forall k :: k in Keys(predecessors) <==> k in QueueKeys(predecessors);
  }

  /** The referrers followed by the danglings without a tag are what a pass appends. */
  lemma PassAppends(w: View, w': View, head: Key, referrers: seq<Descriptor>, danglings: seq<Descriptor>,
                    unkept: seq<Descriptor>)
    requires ReferrerList(w, head, Keys(referrers)) && NoRepeats(Keys(unkept))
    requires forall k :: k in QueueKeys(danglings) <==> k in w.nodes && G.Sources(w.succ, k) == {head}
    requires forall k :: k in Keys(unkept) <==> k in Keys(danglings) && !Tagged(w', k)
    ensures Appended(w, w', head, Keys(referrers + unkept), true)
  {
    var n, added := |referrers|, Keys(referrers + unkept);
    assert added[..n] == Keys(referrers) && added[n..] == Keys(unkept);
    assert forall k :: k in Keys(danglings) <==> k in QueueKeys(danglings);
    assert DanglingList(w, w', head, added[n..]);
  }

  /** The referrers in a list, from the graph and the stored manifests. */
  lemma ReferrersAre(w: View, m: Key, ks: seq<Key>)
    requires ReferrerList(w, m, ks) && IsManifest(m.mediaType)
    ensures forall k :: k in ks <==> RefersInStore(w, k, m)
  {
    forall k
      ensures k in ks <==> RefersInStore(w, k, m)
    {
      SubjectIsNamed(w.files, k, m);
    }
  }

  lemma ReadableMeans(w: View, m: Key)
    ensures Readable(w, m) <==> forall k :: k in w.succ && m in w.succ[k] && CanRefer(k.mediaType) ==>
      Holds(w.files, k) && w.files[k.digest].blob.Json?
  {
    forall k
      ensures k in G.Sources(w.succ, m) && HasSubjectField(k.mediaType) <==>
        k in w.succ && m in w.succ[k] && CanRefer(k.mediaType)
      ensures FetchJson(w.files, k).Ok? <==> Holds(w.files, k) && w.files[k.digest].blob.Json?
    {
    }
  }

  /** What is left of `k` after it has been removed: nothing. */
  predicate Vanished(w: View, k: Key) {
    && k !in w.nodes && k !in w.succ && k.digest !in w.files
    && forall ref :: ref in w.index ==> KeyOf(w.index[ref]) != k
  }

  /** After a deletion the target, its referrers, and what only removed nodes pointed to, are gone. */
  lemma DeletedIsGone(v: View, w: View, target: Key, gone: set<Key>, sound: bool, k: Key)
    requires Deleted(v, w, target, gone, true, sound, true)
    ensures Vanished(w, target)
    ensures (exists m :: m in gone && IsManifest(m.mediaType) && RefersInStore(v, k, m)) || LeftAlone(v, gone, k) ==>
      Vanished(w, k)
  {
    DrawnExactly(v, gone, k);
    assert forall x :: x in gone ==> x.digest in Digests(gone);
  }

  lemma AllGone(v: View, w: View, target: Key, gone: set<Key>, sound: bool)
    requires Deleted(v, w, target, gone, true, sound, true)
    ensures IsManifest(target.mediaType) ==> forall k :: RefersInStore(v, k, target) ==> Vanished(w, k)
    ensures forall k :: LeftAlone(v, gone, k) ==> Vanished(w, k)
  {
    forall k
      ensures IsManifest(target.mediaType) && RefersInStore(v, k, target) ==> Vanished(w, k)
      ensures LeftAlone(v, gone, k) ==> Vanished(w, k)
    {
      DeletedIsGone(v, w, target, gone, sound, k);
    }
  }

  /** Taking one key out of the references, the graph and perhaps the files. */
  lemma TakenOne(v: View, w: View, k: Key)
    requires w.nodes == v.nodes - {k} && w.succ == v.succ - {k} && w.index == Without(v.index, {k})
    requires w.files == v.files || w.files == v.files - {k.digest}
    requires OnlyFewer(v.tags, w.tags, k.digest) && (w.index == v.index ==> w.tags == v.tags)
    ensures Taken(v, w, {k})
  {
    forall d
      ensures TagsShrink(v, w, d)
    {
    }
    if DigestsIdentify(v) {
      forall n
        ensures TagsKept(v, w, n)
      {
      }
    }
  }

  /** The tag sets have lost references, and only that of `d` has changed. */
  ghost predicate OnlyFewer(before: map<Digest, set<string>>, after: map<Digest, set<string>>, d: Digest) {
    forall e {:trigger R.TagsOf(after, e)} ::
      R.TagsOf(after, e) <= R.TagsOf(before, e) && (e != d ==> R.TagsOf(after, e) == R.TagsOf(before, e))
  }

  /** The references that are left when those in `rest` have not been looked at yet. */
  function Remaining(refMap: RefMap, rest: set<string>, target: Key): RefMap {
    map ref | ref in refMap && (ref in rest || KeyOf(refMap[ref]) != target) :: refMap[ref]
  }

  ghost predicate Untagging(refMap: RefMap, tags: map<Digest, set<string>>, rest: set<string>, target: Key,
                            untagged: bool, index: RefMap, tags': map<Digest, set<string>>)
  {
    && rest <= refMap.Keys && index == Remaining(refMap, rest, target)
    && OnlyFewer(tags, tags', target.digest)
    && (!untagged ==> index == refMap && tags' == tags)
    && (untagged ==> exists ref :: ref in refMap && ref !in index)
  }

  lemma UntagOne(refMap: RefMap, tags: map<Digest, set<string>>, rest: set<string>, target: Key, untagged: bool,
                 index: RefMap, tags': map<Digest, set<string>>, ref: string, tags'': map<Digest, set<string>>)
    requires Untagging(refMap, tags, rest, target, untagged, index, tags') && ref in rest
    requires if KeyOf(refMap[ref]) == target then OnlyFewer(tags', tags'', target.digest) else tags'' == tags'
    ensures var hit := KeyOf(refMap[ref]) == target;
      Untagging(refMap, tags, rest - {ref}, target, untagged || hit, if hit then index - {ref} else index, tags'')
  {
    if KeyOf(refMap[ref]) == target {
      assert ref !in index - {ref};
      assert index - {ref} == Remaining(refMap, rest - {ref}, target);
      FewerStill(tags, tags', tags'', target.digest);
    } else {
      assert index == Remaining(refMap, rest - {ref}, target);
    }
  }

  lemma FewerStill(a: map<Digest, set<string>>, b: map<Digest, set<string>>, c: map<Digest, set<string>>, d: Digest)
    requires OnlyFewer(a, b, d) && OnlyFewer(b, c, d)
    ensures OnlyFewer(a, c, d)
  {
    forall e
      ensures R.TagsOf(c, e) <= R.TagsOf(a, e) && (e != d ==> R.TagsOf(c, e) == R.TagsOf(a, e))
    {
      assert R.TagsOf(b, e) <= R.TagsOf(a, e);
    }
  }

  /** Drops every reference to the content; the tag sets of other digests stay as they are. */
  method UntagAll(resolver: R.Memory, target: Key) returns (untagged: bool)
    requires resolver.Valid()
    modifies resolver
    ensures resolver.Valid()
    ensures resolver.index == Without(old(resolver.index), {target})
    ensures OnlyFewer(old(resolver.tags), resolver.tags, target.digest)
    ensures untagged <==> resolver.index != old(resolver.index)
    ensures !untagged ==> resolver.tags == old(resolver.tags)
  {
    untagged := false;
    var refMap := resolver.index;
    ghost var tags := resolver.tags;
    var rest := refMap.Keys;
    assert Remaining(refMap, rest, target) == refMap;
    while rest != {}
      invariant resolver.Valid() && Untagging(refMap, tags, rest, target, untagged, resolver.index, resolver.tags)
      decreases rest
    {
      var ref :| ref in rest;
      ghost var index, before, was := resolver.index, resolver.tags, untagged;
      if KeyOf(refMap[ref]) == target {
        resolver.Untag(ref);
        untagged := true;
      }
      UntagOne(refMap, tags, rest, target, was, index, before, ref, resolver.tags);
      rest := rest - {ref};
    }
    assert Remaining(refMap, {}, target) == Without(refMap, {target});
  }

  class Store {
    var autoGC: bool
    var autoSaveIndex: bool
    var files: Files
    var indexFile: seq<Descriptor>
    var resolver: R.Memory
    var graph: G.Memory

    /** A store over a directory whose index has not been loaded yet. */
    constructor (files: Files, indexFile: seq<Descriptor>)
      ensures Valid() && fresh(resolver) && fresh(graph) && autoGC && autoSaveIndex
      ensures State() == View({}, map[], files, map[], map[]) && this.indexFile == indexFile
    {
      autoGC, autoSaveIndex, this.files, this.indexFile := true, true, files, indexFile;
      resolver := new R.Memory();
      graph := new G.Memory();
    }

    ghost predicate Valid()
      reads this, resolver, graph
    {
      resolver.Valid() && graph.Valid()
    }

    ghost function State(): View
      reads this, resolver, graph
    {
      View(graph.nodes.Keys, graph.successors, files, resolver.index, resolver.tags)
    }

    /** Writing the index can fail if the disk is not `sound`; what the file holds then is not known. */
    method SaveIndex(sound: bool) returns (ok: bool)
      requires Valid()
      modifies this`indexFile
      ensures ok ==> Saved(resolver.index, indexFile)
      ensures sound ==> ok
    {
      var manifests := IndexFile.SaveIndex(resolver.index);
      var written := *;
      ok := sound || written;
      if ok {
        indexFile := manifests;
      } else {
        indexFile := *;
      }
    }

    /** Tags content under its digest as well; content that is not stored cannot be tagged. */
    method Tag(desc: Descriptor, reference: string, sound: bool) returns (ok: bool)
      requires Valid()
      modifies this`indexFile, resolver
      ensures Valid()
      ensures ok ==> reference != "" && desc.digest in files
      ensures sound && reference != "" && desc.digest in files ==> ok
      ensures resolver.index == if reference != "" && desc.digest in files
        then old(resolver.index)[desc.digest := desc][reference := desc] else old(resolver.index)
      ensures forall d {:trigger R.TagsOf(resolver.tags, d)} ::
        var before := R.TagsOf(old(resolver.tags), d);
        R.TagsOf(resolver.tags, d) ==
          if reference != "" && d == desc.digest && d in files then before + {d, reference} else before
      ensures ok && autoSaveIndex ==> Saved(resolver.index, indexFile)
    {
      if reference == "" || desc.digest !in files {
        return false;
      }
      if reference != desc.digest {
        resolver.Tag(desc, desc.digest);
      }
      resolver.Tag(desc, reference);
      ok := true;
      if autoSaveIndex {
        ok := SaveIndex(sound);
      }
    }

    /** Removes a tag; a digest cannot be untagged. */
    method Untag(reference: string, sound: bool) returns (ok: bool)
      requires Valid()
      modifies this`indexFile, resolver
      ensures Valid()
      ensures if sound then ok <==> IsTagRef(old(resolver.index), reference) && reference != ""
              else ok ==> IsTagRef(old(resolver.index), reference) && reference != ""
      ensures resolver.index == if IsTagRef(old(resolver.index), reference) && reference != ""
        then old(resolver.index) - {reference} else old(resolver.index)
      ensures forall d {:trigger R.TagsOf(resolver.tags, d)} ::
        var removed := IsTagRef(old(resolver.index), reference) && reference != "";
        R.TagsOf(resolver.tags, d) ==
          if removed then R.TagsWithout(old(resolver.index), old(resolver.tags), reference, d)
          else R.TagsOf(old(resolver.tags), d)
      ensures ok && autoSaveIndex ==> Saved(resolver.index, indexFile)
    {
      if reference == "" {
        return false;
      }
      var resolved := resolver.Resolve(reference);
      if resolved.Err? || reference == resolved.value.digest {
        return false;
      }
      resolver.Untag(reference);
      ok := true;
      if autoSaveIndex {
        ok := SaveIndex(sound);
      }
    }

    /** The manifests whose subject is the manifest `desc`. */
    method Referrers(desc: Descriptor) returns (r: Result<seq<Descriptor>>)
      requires Valid()
      ensures r.Ok? ==> ReferrerList(State(), KeyOf(desc), Keys(r.value))
      ensures r.Ok? ==> forall k :: k in Keys(r.value) <==>
        k in graph.successors && KeyOf(desc) in graph.successors[k] && NamesSubject(files, k, KeyOf(desc))
      ensures r.Ok? <==> IsManifest(desc.mediaType) && Readable(State(), KeyOf(desc))
      ensures r.Err? && IsManifest(desc.mediaType) <==> IsManifest(desc.mediaType) && exists k ::
        && k in graph.successors && KeyOf(desc) in graph.successors[k] && CanRefer(k.mediaType)
        && !(Holds(files, k) && files[k.digest].blob.Json?)
      ensures !IsManifest(desc.mediaType) ==> r == Err(Unsupported)
    {
      if !IsManifest(desc.mediaType) {
        return Err(Unsupported);
      }
      var predecessors := graph.Predecessors(desc);
      assert QueueKeys(predecessors) == G.Sources(graph.successors, KeyOf(desc));
      var results: seq<Descriptor> := [];
      for i := 0 to |predecessors|
        invariant Filtered(files, KeyOf(desc), Keys(predecessors[..i]), Keys(results))
      {
        var node := predecessors[i];
        assert predecessors[..i + 1] == predecessors[..i] + [node];
        if HasSubjectField(node.mediaType) && Subject(files, KeyOf(node)).Err? {
          assert Keys(predecessors)[i] == KeyOf(node);
          assert KeyOf(node) in QueueKeys(predecessors);
          ReadableMeans(State(), KeyOf(desc));
          return Err(Subject(files, KeyOf(node)).error);
        }
        FilterOne(files, KeyOf(desc), predecessors[..i], results, node);
        if HasSubjectField(node.mediaType) && Subject(files, KeyOf(node)).value == Some(KeyOf(desc)) {
          results := results + [node];
        }
      }
      assert predecessors[..|predecessors|] == predecessors;
      r := Ok(results);
      ReadableMeans(State(), KeyOf(desc));
      FilteredAll(State(), KeyOf(desc), predecessors, results);
      ReferrersAre(State(), KeyOf(desc), Keys(results));
    }

    /** Deletes one node: its references, its place in the graph, then its blob. */
    method DeleteOne(target: Descriptor, sound: bool) returns (r: Result<seq<Descriptor>>)
      requires Valid()
      modifies this`files, this`indexFile, resolver, graph
      ensures Valid()
      ensures Taken(old(State()), State(), {KeyOf(target)})
      ensures r.Ok? ==> target.digest in old(files) && files == old(files) - {target.digest}
      ensures r.Err? ==> files == old(files) && (sound ==> target.digest !in old(files) && r == Err(NotFound))
      ensures r.Ok? ==> NoRepeats(Keys(r.value)) && forall s :: s in QueueKeys(r.value) <==>
        s in old(graph.nodes) && G.Sources(old(graph.successors), s) == {KeyOf(target)}
      ensures r.Ok? && autoSaveIndex && old(Saved(resolver.index, indexFile)) ==> Saved(resolver.index, indexFile)
    {
      ghost var v := State();
      var untagged := UntagAll(resolver, KeyOf(target));
      ghost var nodes, succ, pred := graph.nodes, graph.successors, graph.predecessors;
      var danglings := graph.Remove(target);
      forall s
        ensures s in QueueKeys(danglings) <==> s in nodes && G.Sources(succ, s) == {KeyOf(target)}
      {
        DanglingsAre(danglings, nodes, succ, pred, KeyOf(target), s);
      }
      r := Ok(danglings);
      if untagged && autoSaveIndex {
        var ok := SaveIndex(sound);
        if !ok {
          r := Err(Other);
        }
      }
      if r.Ok? {
        var removed := *;
        if target.digest !in files {
          r := Err(NotFound);
        } else if sound || removed {
          files := files - {target.digest};
        } else {
          r := Err(Other);
        }
      }
      TakenOne(v, State(), KeyOf(target));
    }

    /** The danglings that no tag keeps. */
    method Unkept(danglings: seq<Descriptor>) returns (res: seq<Descriptor>)
      requires Valid()
      ensures forall k :: k in Keys(res) <==> k in Keys(danglings) && !Tagged(State(), k)
      ensures NoRepeats(Keys(danglings)) ==> NoRepeats(Keys(res))
    {
      res := [];
      for i := 0 to |danglings|
        invariant forall k :: k in Keys(res) <==> k in Keys(danglings[..i]) && !Tagged(State(), k)
        invariant NoRepeats(Keys(danglings)) ==> NoRepeats(Keys(res))
      {
        var d := danglings[i];
        assert danglings[..i + 1] == danglings[..i] + [d];
        assert Keys(danglings[..i + 1]) == Keys(danglings[..i]) + [KeyOf(d)];
        assert Keys(res + [d]) == Keys(res) + [KeyOf(d)];
        assert NoRepeats(Keys(danglings)) ==> KeyOf(d) !in Keys(danglings[..i]) by {
          assert Keys(danglings)[i] == KeyOf(d);
          assert forall j :: 0 <= j < i ==> Keys(danglings)[j] == Keys(danglings[..i])[j];
        }
        var tagged := resolver.IsTagged(d);
        if !tagged {
          res := res + [d];
        }
      }
      assert danglings[..|danglings|] == danglings;
    }

    /** One pass of the deletion queue: deletes its head and returns what to append to the queue. */
    method Pass(head: Descriptor, sound: bool) returns (r: Result<seq<Descriptor>>, ghost part: set<Key>)
      requires Valid()
      modifies this`files, this`indexFile, resolver, graph
      ensures Valid()
      ensures part <= {KeyOf(head)} && Taken(old(State()), State(), part)
      ensures r.Ok? ==> part == {KeyOf(head)} && Passes(old(State()), KeyOf(head), State(), Keys(r.value), autoGC)
      ensures if r.Ok? then files.Keys < old(files).Keys else files == old(files)
      ensures sound ==> (r.Ok? <==> !Obstacle(old(State()), KeyOf(head), autoGC))
      ensures sound && r.Err? && Readable(old(State()), KeyOf(head)) ==> r == Err(NotFound)
      ensures r.Ok? && autoSaveIndex && old(Saved(resolver.index, indexFile)) ==> Saved(resolver.index, indexFile)
    {
      part := {};
      ghost var w := State();
      TakeNone(w);
      var added: seq<Descriptor> := [];
      if autoGC && IsManifest(head.mediaType) {
        var referrers := Referrers(head);
        if referrers.Err? {
          return referrers, part;
        }
        added := referrers.value;
      }
      assert autoGC ==> ReferrerList(w, KeyOf(head), Keys(added));
      var danglings := DeleteOne(head, sound);
      part := {KeyOf(head)};
      if danglings.Err? || !autoGC {
        return if danglings.Err? then danglings else Ok([]), part;
      }
      var unkept := Unkept(danglings.value);
      PassAppends(w, State(), KeyOf(head), added, danglings.value, unkept);
      r := Ok(added + unkept);
    }

    /** One turn of the deletion loop, for a deletion of `target` that began in state `v`. */
    method Turn(queue: seq<Descriptor>, sound: bool, ghost v: View, ghost target: Key, ghost gone: set<Key>)
      returns (err: Option<Error>, queue': seq<Descriptor>, ghost gone': set<Key>)
      requires Valid() && |queue| > 0 && Going(v, State(), target, gone, Keys(queue), autoGC)
      modifies this`files, this`indexFile, resolver, graph
      ensures Valid()
      ensures err.None? ==> Going(v, State(), target, gone', Keys(queue'), autoGC) && files.Keys < old(files).Keys
      ensures err.Some? ==> Deleted(v, State(), target, gone', false, sound, autoGC)
      ensures err.None? && autoSaveIndex && old(Saved(resolver.index, indexFile)) ==> Saved(resolver.index, indexFile)
    {
      var head, rest := queue[0], queue[1..];
      ghost var w := State();
      KeysTake(queue);
      var added, part := Pass(head, sound);
      if added.Err? {
        StopGoing(v, w, State(), target, gone, KeyOf(head), Keys(rest), part, sound, autoGC);
        return Some(added.error), queue, gone + part;
      }
      StepGoing(v, w, State(), target, gone, KeyOf(head), Keys(rest), Keys(added.value), autoGC);
      KeysConcat(rest, added.value);
      return None, rest + added.value, gone + {KeyOf(head)};
    }

    /**
     Deletes the target and, with automatic garbage collection, what the deletion draws along. `gone` is what has
     been taken out: on success exactly the least complete set with the target, on an error a part of it, and in
     both cases only what has been drawn along. On a sound disk the deletion succeeds if the state is clear.
     */
    method Delete(target: Descriptor, sound: bool) returns (err: Option<Error>, ghost gone: set<Key>)
      requires Valid()
      modifies this`files, this`indexFile, resolver, graph
      ensures Valid()
      ensures Deleted(old(State()), State(), KeyOf(target), gone, err.None?, sound, autoGC)
      ensures err.None? && autoGC && IsManifest(target.mediaType) ==>
        forall k :: RefersInStore(old(State()), k, KeyOf(target)) ==> Vanished(State(), k)
      ensures err.None? && autoGC ==> forall k :: LeftAlone(old(State()), gone, k) ==> Vanished(State(), k)
      ensures err.None? && autoSaveIndex && old(Saved(resolver.index, indexFile)) ==> Saved(resolver.index, indexFile)
    {
      ghost var v, t, saved := State(), KeyOf(target), autoSaveIndex && Saved(resolver.index, indexFile);
      gone := {};
      var queue := [target];
      StartGoing(v, queue, target, autoGC);
      while |queue| > 0
        invariant Valid() && Going(v, State(), t, gone, Keys(queue), autoGC)
        invariant saved ==> Saved(resolver.index, indexFile)
        decreases files.Keys
      {
        err, queue, gone := Turn(queue, sound, v, t, gone);
        if err.Some? {
          return;
        }
      }
      EndGoing(v, State(), t, gone, sound, autoGC);
      err := None;
      if autoGC {
        AllGone(v, State(), t, gone, sound);
      }
    }

    /**
     Rebuilds the index from the tags and removes the blobs that the rebuilt graph does not mention. `order` is the
     order in which the references without a tag are visited; `collectable` are the digests of known algorithms.
     */
    method GC(tagOrder: seq<string>, order: seq<string>, collectable: Digest -> bool, sound: bool)
      returns (r: StoreGC.Rebuild, ok: bool, ghost kept: set<string>)
      requires Valid() && StoreGC.Listing(resolver.index, tagOrder) && StoreGC.Listing(resolver.index, order)
      modifies this`files, this`resolver, this`graph
      ensures Valid()
      ensures r.Finished? || (unchanged(this`files) && unchanged(this`resolver) && unchanged(this`graph) && !ok)
      ensures forall d :: d in files ==> d in old(files) && files[d] == old(files)[d]
      ensures forall d :: d in old(files) && StoreGC.TagNeeds(old(files), old(resolver.index), d) ==> d in files
      ensures r.Finished? ==>
        StoreGC.RebuildDone(old(resolver.index), old(files), graph.nodes.Keys, resolver.index, kept)
      ensures r.Finished? ==> var m := old(resolver.index);
        StoreGC.IndexedBy(m, StoreGC.RebuildOrder(m, old(files), tagOrder, order), resolver.index)
      ensures r.Finished? ==>
        forall d :: d in old(files) && (!collectable(d) || d in Digests(graph.nodes.Keys)) ==> d in files
      ensures ok ==> forall d :: d in files <==>
        d in old(files) && (!collectable(d) || d in Digests(graph.nodes.Keys))
      ensures sound && r.Finished? ==> ok
      ensures r.Hangs? <==> StoreGC.WillHang(old(resolver.index), old(files), order)
      ensures r.Finished? <==> StoreGC.WillFinish(old(resolver.index), old(files), order)
    {
      ghost var m, before := resolver.index, files;
      var newResolver, newGraph;
      r, newResolver, newGraph, kept := StoreGC.RebuildIndex(resolver.index, tagOrder, order, files);
      ok := false;
      if r.Finished? {
        resolver, graph := newResolver, newGraph;
        var keep := set k | k in graph.nodes.Keys :: k.digest;
        files, ok := StoreGC.Sweep(files, keep, collectable, sound);
        forall d | d in before && StoreGC.TagNeeds(before, m, d)
          ensures d in files
        {
          StoreGC.KeptDigests(before, m, StoreGC.TagRefs(m) + kept, graph.nodes.Keys, d);
        }
      }
    }
  }

  /**
   `New`: a store over the files and the index of a directory. An index that was saved by a store brings its references
   back, and the graph of everything below them; it can be opened unless something below an entry cannot be read.
   */
  method Open(files: Files, indexFile: seq<Descriptor>) returns (err: Option<Error>, store: Store)
    ensures fresh(store) && store.Valid() && fresh(store.resolver) && fresh(store.graph)
    ensures store.files == files && store.indexFile == indexFile
    ensures err.Some? <==> exists k :: k in Keys(indexFile) && IndexAll.BrokenUnder(files, k)
    ensures err.None? ==> store.resolver.index == Load(map[], indexFile)
    ensures err.None? ==> forall m :: Saved(m, indexFile) && StoreRefs(m) ==>
      && (forall k :: k in store.graph.nodes <==> StoreGC.Justified(files, m, m.Keys, k))
      && (Unambiguous(m) ==> SameContent(m, store.resolver.index) && forall r :: RestoredAt(m, store.resolver.index, r))
  {
    store := new Store(files, indexFile);
    assert IndexAll.Gathered(files, {}, store.graph.nodes.Keys);
    err := StoreLoad.LoadIndex(indexFile, files, store.resolver, store.graph, {});
    if err.None? {
      assert {} + SetOf(Keys(indexFile)) == SetOf(Keys(indexFile));
      forall m | Saved(m, indexFile) && StoreRefs(m)
        ensures forall k :: k in store.graph.nodes <==> StoreGC.Justified(files, m, m.Keys, k)
        ensures Unambiguous(m) ==>
          SameContent(m, Load(map[], indexFile)) && forall r :: RestoredAt(m, Load(map[], indexFile), r)
      {
        Reopened(m, indexFile, files, store.graph.nodes.Keys);
      }
    }
  }

  lemma Reopened(m: RefMap, file: seq<Descriptor>, files: Files, nodes: set<Key>)
    requires Saved(m, file) && StoreRefs(m) && IndexAll.Gathered(files, SetOf(Keys(file)), nodes)
    ensures forall k :: k in nodes <==> StoreGC.Justified(files, m, m.Keys, k)
    ensures Unambiguous(m) ==> SameContent(m, Load(map[], file)) && forall r :: RestoredAt(m, Load(map[], file), r)
  {
    forall k
      ensures k in nodes <==> StoreGC.Justified(files, m, m.Keys, k)
    {
      StoreLoad.LoadedGraph(m, file, files, nodes, k);
    }
    var refs :| SaveOrder(m, refs) && file == Entries(m, refs);
    if Unambiguous(m) {
      RoundTrip(m, refs);
    }
  }
}
