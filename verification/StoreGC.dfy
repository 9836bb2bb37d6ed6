/** Garbage collection of a layout: the index is rebuilt from the tags, and blobs it does not mention are removed. */
module StoreGC {
  import opened Content
  import opened Layout
  import opened IndexAll
  import opened IndexFile
  import G = GraphMemory
  import R = Resolver

  /** What `refs` resolve to. */
  function Targets(m: RefMap, refs: set<string>): set<Key> {
    set ref | ref in refs && ref in m :: KeyOf(m[ref])
  }

  lemma MoreTargets(m: RefMap, refs: set<string>, ref: string)
    requires ref in m
    ensures Targets(m, refs + {ref}) == Targets(m, refs) + {KeyOf(m[ref])}
  {
  }

  /** `k` can be reached from one of `refs`, and is not a manifest that is missing. */
  ghost predicate Justified(files: Files, m: RefMap, refs: set<string>, k: Key) {
    UnderSome(files, Targets(m, refs), k)
  }

  /** The nodes are exactly the content below `refs`. */
  ghost predicate Rebuilt(files: Files, m: RefMap, refs: set<string>, nodes: set<Key>) {
    Gathered(files, Targets(m, refs), nodes)
  }

  /** Something that cannot be read can be reached from what `ref` resolves to. */
  ghost predicate BrokenBelow(files: Files, m: RefMap, ref: string) {
    ref in m && BrokenUnder(files, KeyOf(m[ref]))
  }

  /** The content of `ref`, or something below it, cannot be read. */
  ghost predicate Unreadable(m: RefMap, files: Files, ref: string) {
    ref in m && (Subject(files, KeyOf(m[ref])).Err? || BrokenBelow(files, m, ref))
  }

  /** Indexing below one more reference. */
  lemma RebuiltMore(files: Files, m: RefMap, refs: set<string>, nodes: set<Key>, ref: string, reached: set<Key>,
                    nodes': set<Key>)
    requires Rebuilt(files, m, refs, nodes) && ref in m
    requires Outcome(files, KeyOf(m[ref]), nodes, nodes', reached, false)
    ensures Rebuilt(files, m, refs + {ref}, nodes')
  {
    MoreTargets(m, refs, ref);
    GatherMore(files, Targets(m, refs), nodes, KeyOf(m[ref]), reached, nodes');
  }

  lemma RebuiltExact(files: Files, m: RefMap, refs: set<string>, nodes: set<Key>, k: Key)
    requires Rebuilt(files, m, refs, nodes)
    ensures k in nodes <==> Justified(files, m, refs, k)
  {
    GatheredExact(files, Targets(m, refs), nodes, k);
  }

  /** Content with digest `d` can be reached from a tag through manifests that can be read. */
  ghost predicate TagNeeds(files: Files, m: RefMap, d: Digest) {
    exists ref, k :: RefNeeds(files, m, ref, k) && k.digest == d
  }

  ghost predicate RefNeeds(files: Files, m: RefMap, ref: string, k: Key) {
    IsTagRef(m, ref) && exists s :: Reached(files, KeyOf(m[ref]), s) && k in s
  }

  /** Nothing that is stored below a tag lacks a node with its digest. */
  lemma KeptDigests(files: Files, m: RefMap, refs: set<string>, nodes: set<Key>, d: Digest)
    requires Rebuilt(files, m, refs, nodes) && TagNeeds(files, m, d) && d in files
    requires forall ref :: IsTagRef(m, ref) ==> ref in refs
    ensures exists k :: k in nodes && k.digest == d
  {
    var ref, k :| RefNeeds(files, m, ref, k) && k.digest == d;
    var s :| Reached(files, KeyOf(m[ref]), s) && k in s;
    assert AllBelow(files, nodes, KeyOf(m[ref]));
    assert !Broken(files, k);
  }

  // ----- the rebuilt references -----

  /** Tagging by digest, then by the reference itself unless it is the digest. */
  function Retag(l: RefMap, ref: string, d: Descriptor): RefMap {
    if ref == d.digest then l[d.digest := Unnamed(d)] else l[d.digest := Unnamed(d)][ref := d]
  }

  /** The resolver after `refs` have been tagged again, one after the other. */
  function Retagged(m: RefMap, refs: seq<string>): RefMap
    requires IndexFile.Within(m, refs)
  {
    if refs == [] then map[] else Retag(Retagged(m, refs[..|refs| - 1]), refs[|refs| - 1], m[refs[|refs| - 1]])
  }

  lemma RetagMore(m: RefMap, refs: seq<string>, ref: string)
    requires IndexFile.Within(m, refs) && ref in m
    ensures IndexFile.Within(m, refs + [ref]) && Retagged(m, refs + [ref]) == Retag(Retagged(m, refs), ref, m[ref])
  {
    assert (refs + [ref])[..|refs|] == refs;
  }

  /** What the rebuilt resolver says about `r` once `refs` have been processed. */
  ghost predicate CarriedAt(m: RefMap, refs: set<string>, l: RefMap, r: string) {
    && (r in refs && IsTagRef(m, r) ==> r in l && l[r] == m[r])
    && (r in l ==> r in m && KeyOf(l[r]) == KeyOf(m[r]) && m[r].digest in l)
    && (r in l && !IsTagRef(m, r) ==> REF_NAME !in l[r].annotations && DigestFrom(m, l[r], r))
  }

  ghost predicate Carried(m: RefMap, refs: set<string>, l: RefMap) {
    forall r {:trigger CarriedAt(m, refs, l, r)} :: CarriedAt(m, refs, l, r)
  }

  lemma CarryMore(m: RefMap, refs: set<string>, l: RefMap, ref: string)
    requires Carried(m, refs, l) && ref in m && StoreRefs(m) && Unambiguous(m)
    ensures Carried(m, refs + {ref}, Retag(l, ref, m[ref]))
  {
    var d := m[ref].digest;
    assert DigestKnown(m, ref) && UnambiguousAt(m, d, ref) && DigestIdentifies(m, d, ref);
    NamingAgrees(m[ref], ref);
    assert DigestFrom(m, Unnamed(m[ref]), d);
    forall r
      ensures CarriedAt(m, refs + {ref}, Retag(l, ref, m[ref]), r)
    {
      assert CarriedAt(m, refs, l, r) && UnambiguousAt(m, r, ref);
    }
  }

  lemma {:induction false} RetaggedCarries(m: RefMap, refs: seq<string>)
    requires StoreRefs(m) && Unambiguous(m) && IndexFile.Within(m, refs)
    ensures Carried(m, SetOf(refs), Retagged(m, refs))
  {
    if refs != [] {
      var front, ref := refs[..|refs| - 1], refs[|refs| - 1];
      RetaggedCarries(m, front);
      CarryMore(m, SetOf(front), Retagged(m, front), ref);
      assert refs == front + [ref];
      assert SetOf(refs) == SetOf(front) + {ref};
    }
  }

  /** Collection keeps the conditions under which tags survive it, and saving and loading. */
  lemma CarriedKeeps(m: RefMap, refs: set<string>, l: RefMap)
    requires StoreRefs(m) && Unambiguous(m) && Carried(m, refs, l)
    ensures StoreRefs(l) && Unambiguous(l)
  {
    forall r
      ensures DigestKnown(l, r)
    {
      assert CarriedAt(m, refs, l, r);
    }
    assert CarriedAt(m, refs, l, "");
    forall r, q
      ensures DigestIdentifies(l, r, q) && UnambiguousAt(l, r, q)
    {
      assert CarriedAt(m, refs, l, r) && CarriedAt(m, refs, l, q);
      assert DigestIdentifies(m, r, q) && UnambiguousAt(m, r, q);
    }
  }

  // ----- when tags survive -----

  /** The members of `keep` among `order`, in its order. */
  function Pick(order: seq<string>, keep: set<string>): seq<string> {
    if order == [] then []
    else
      var front, ref := Pick(order[..|order| - 1], keep), order[|order| - 1];
      if ref in keep then front + [ref] else front
  }

  lemma PickMore(order: seq<string>, i: nat, keep: set<string>)
    requires i < |order|
    ensures Pick(order[..i + 1], keep) == if order[i] in keep then Pick(order[..i], keep) + [order[i]]
      else Pick(order[..i], keep)
  {
    assert order[..i + 1][..i] == order[..i];
  }

  lemma {:induction false} PickMembers(order: seq<string>, keep: set<string>, ref: string)
    ensures ref in Pick(order, keep) <==> ref in order && ref in keep
  {
    if order != [] {
      assert order == order[..|order| - 1] + [order[|order| - 1]];
      PickMembers(order[..|order| - 1], keep, ref);
    }
  }

  lemma PickWithin(m: RefMap, order: seq<string>, keep: set<string>)
    requires IndexFile.Within(m, order)
    ensures IndexFile.Within(m, Pick(order, keep))
  {
    forall ref | ref in Pick(order, keep)
      ensures ref in m
    {
      PickMembers(order, keep, ref);
    }
  }

  lemma {:induction false} PickFirst(first: string, rest: seq<string>, keep: set<string>)
    requires first in keep
    ensures Pick([first] + rest, keep) == [first] + Pick(rest, keep)
  {
    var all := [first] + rest;
    if rest == [] {
      assert all[..0] == [];
    } else {
      assert all[..|all| - 1] == [first] + rest[..|rest| - 1];
      PickFirst(first, rest[..|rest| - 1], keep);
    }
  }

  /** Every tag resolves as before. */
  ghost predicate TagsSurvive(m: RefMap, l: RefMap) {
    forall r :: IsTagRef(m, r) ==> r in l && l[r] == m[r]
  }

  /** Processed first, a tag that is the digest of other content is overwritten, and never restored. */
  lemma {:induction false} TagOverwritten(m: RefMap, refs: seq<string>, r: string, q: string)
    requires IndexFile.Within(m, refs) && |refs| > 0 && refs[0] == r && r !in refs[1..]
    requires q in refs && q != r && m[q].digest == r
    ensures var l := Retagged(m, refs); r in l && l[r].digest == r
  {
    var front, ref := refs[..|refs| - 1], refs[|refs| - 1];
    assert refs == front + [ref];
    assert ref in refs[1..];
    if m[ref].digest != r {
      assert front[1..] == refs[1..][..|refs| - 2];
      TagOverwritten(m, front, r, q);
    }
  }

  /** The first pass over a listing of all references, followed by references that are no tags. */
  ghost predicate SurviveIn(m: RefMap, first: seq<string>, later: seq<string>) {
    var refs := Pick(first, TagRefs(m)) + later;
    IndexFile.Within(m, refs) ==> TagsSurvive(m, Retagged(m, refs))
  }

  lemma UnambiguousSurvive(m: RefMap, first: seq<string>, later: seq<string>)
    requires StoreRefs(m) && Unambiguous(m) && Listing(m, first)
    ensures SurviveIn(m, first, later)
  {
    var refs := Pick(first, TagRefs(m)) + later;
    if IndexFile.Within(m, refs) {
      RetaggedCarries(m, refs);
      forall r | IsTagRef(m, r)
        ensures r in Retagged(m, refs) && Retagged(m, refs)[r] == m[r]
      {
        PickMembers(first, TagRefs(m), r);
        assert r in refs && CarriedAt(m, SetOf(refs), Retagged(m, refs), r);
      }
    }
  }

  /**
   Whatever the second pass keeps, every tag survives in every order of the first pass if and only if no reference is
   the digest of other content.
   */
  lemma TagsSurviveExact(m: RefMap, later: seq<string>)
    requires StoreRefs(m) && IndexFile.Within(m, later) && forall ref :: ref in later ==> !IsTagRef(m, ref)
    ensures (forall first :: Listing(m, first) ==> SurviveIn(m, first, later)) <==> Unambiguous(m)
  {
    if Unambiguous(m) {
      forall first | Listing(m, first)
        ensures SurviveIn(m, first, later)
      {
        UnambiguousSurvive(m, first, later);
      }
    } else {
      var r, q :| !UnambiguousAt(m, r, q);
      var first := LostTag(m, later, r, q);
      assert !SurviveIn(m, first, later);
    }
  }

  lemma HeadOfThree(r: string, tags: seq<string>, later: seq<string>)
    ensures var refs := [r] + tags + later; refs[0] == r && refs[1..] == tags + later
  {
  }

  /** The order in which a listing that starts with the tag `r` is processed. */
  lemma ProcessedFrom(m: RefMap, first: seq<string>, rest: seq<string>, r: string, q: string)
    returns (tags: seq<string>)
    requires Listing(m, first) && first == [r] + rest && r !in rest && IsTagRef(m, r) && IsTagRef(m, q) && q != r
    ensures Pick(first, TagRefs(m)) == [r] + tags && IndexFile.Within(m, [r] + tags) && r !in tags && q in tags
  {
    tags := Pick(rest, TagRefs(m));
    PickFirst(r, rest, TagRefs(m));
    PickWithin(m, first, TagRefs(m));
    PickMembers(rest, TagRefs(m), q);
    PickMembers(rest, TagRefs(m), r);
  }

  lemma LostTag(m: RefMap, later: seq<string>, r: string, q: string) returns (first: seq<string>)
    requires IndexFile.Within(m, later) && (forall ref :: ref in later ==> !IsTagRef(m, ref)) && !UnambiguousAt(m, r, q)
    ensures Listing(m, first) && !SurviveIn(m, first, later)
  {
    first := ListingFrom(m, r);
    var tags := ProcessedFrom(m, first, first[1..], r, q);
    HeadOfThree(r, tags, later);
    TagOverwritten(m, [r] + tags + later, r, q);
  }

  ghost predicate Listing(m: RefMap, order: seq<string>) {
    IndexFile.Within(m, order) && NoRepeats(order) && forall ref :: ref in m ==> ref in order
  }

  /** Any reference can be the first to be listed. */
  lemma ListingFrom(m: RefMap, ref: string) returns (order: seq<string>)
    requires ref in m
    ensures Listing(m, order) && |order| > 0 && order[0] == ref && ref !in order[1..]
  {
    var rest := Listed(m.Keys - {ref});
    order := [ref] + rest;
    assert forall q :: q in m ==> q == ref || q in rest;
    assert order[1..] == rest;
  }

  // ----- the first pass -----

  /** Rebuilding the index ends, fails, or does not end. */
  datatype Rebuild = Finished | Failed(error: Error) | Hangs

  function TagRefs(m: RefMap): set<string> {
    set ref | ref in m && IsTagRef(m, ref)
  }

  ghost predicate TagBroken(m: RefMap, files: Files) {
    exists ref :: IsTagRef(m, ref) && BrokenBelow(files, m, ref)
  }

  function DigestsOf(m: RefMap, refs: seq<string>): set<Digest>
    requires IndexFile.Within(m, refs)
  {
    set ref | ref in refs :: m[ref].digest
  }

  /** The state of the first pass after `tags`. */
  ghost predicate Tagging(m: RefMap, files: Files, tags: seq<string>, tagged: set<Digest>, nodes: set<Key>,
                          index: RefMap)
  {
    && IndexFile.Within(m, tags) && index == Retagged(m, tags)
    && tagged == DigestsOf(m, tags)
    && Rebuilt(files, m, SetOf(tags), nodes) && forall ref :: ref in tags ==> !BrokenBelow(files, m, ref)
  }

  lemma TagStep(m: RefMap, files: Files, tags: seq<string>, tagged: set<Digest>, nodes: set<Key>, index: RefMap,
                ref: string, reached: set<Key>, nodes': set<Key>)
    requires Tagging(m, files, tags, tagged, nodes, index) && ref in m
    requires Outcome(files, KeyOf(m[ref]), nodes, nodes', reached, false)
    ensures Tagging(m, files, tags + [ref], tagged + {m[ref].digest}, nodes', Retag(index, ref, m[ref]))
  {
    var all := tags + [ref];
    assert forall q :: q in all <==> q in tags || q == ref;
    assert SetOf(all) == SetOf(tags) + {ref};
    RetagMore(m, tags, ref);
    assert DigestsOf(m, all) == DigestsOf(m, tags) + {m[ref].digest};
    NothingBroken(files, KeyOf(m[ref]), reached);
    RebuiltMore(files, m, SetOf(tags), nodes, ref, reached, nodes');
  }

  /** The first pass has come to reference `i`. */
  ghost predicate TaggedUpTo(m: RefMap, files: Files, order: seq<string>, i: nat, tagged: set<Digest>, nodes: set<Key>,
                             index: RefMap)
  {
    i <= |order| && Tagging(m, files, Pick(order[..i], TagRefs(m)), tagged, nodes, index)
  }

  lemma TagNext(m: RefMap, files: Files, order: seq<string>, i: nat, tagged: set<Digest>, nodes: set<Key>,
                index: RefMap, reached: set<Key>, nodes': set<Key>)
    requires TaggedUpTo(m, files, order, i, tagged, nodes, index) && i < |order| && IsTagRef(m, order[i])
    requires Outcome(files, KeyOf(m[order[i]]), nodes, nodes', reached, false)
    ensures TaggedUpTo(m, files, order, i + 1, tagged + {m[order[i]].digest}, nodes',
                       Retag(index, order[i], m[order[i]]))
  {
    PickMore(order, i, TagRefs(m));
    TagStep(m, files, Pick(order[..i], TagRefs(m)), tagged, nodes, index, order[i], reached, nodes');
  }

  lemma TagSkip(m: RefMap, files: Files, order: seq<string>, i: nat, tagged: set<Digest>, nodes: set<Key>,
                index: RefMap)
    requires TaggedUpTo(m, files, order, i, tagged, nodes, index) && i < |order| && !IsTagRef(m, order[i])
    ensures TaggedUpTo(m, files, order, i + 1, tagged, nodes, index)
  {
    PickMore(order, i, TagRefs(m));
  }

  lemma TaggingDone(m: RefMap, files: Files, order: seq<string>, tagged: set<Digest>, nodes: set<Key>, index: RefMap)
    requires Listing(m, order) && Tagging(m, files, Pick(order, TagRefs(m)), tagged, nodes, index)
    ensures SetOf(Pick(order, TagRefs(m))) == TagRefs(m) && !TagBroken(m, files)
    ensures forall d :: d in tagged <==> DigestTagged(m, d)
  {
    forall ref
      ensures ref in Pick(order, TagRefs(m)) <==> ref in TagRefs(m)
    {
      PickMembers(order, TagRefs(m), ref);
    }
  }

  /** Tags again what `ref` resolves to, and indexes what is below it. */
  method IndexTag(desc: Descriptor, ref: string, files: Files, resolver: R.Memory, graph: G.Memory)
    returns (err: Option<Error>, ghost reached: set<Key>)
    requires resolver.Valid() && Sound(graph, files) && ref != desc.digest
    modifies resolver, graph
    ensures resolver.Valid() && Sound(graph, files) && resolver.index == Retag(old(resolver.index), ref, desc)
    ensures Outcome(files, KeyOf(desc), old(graph.nodes.Keys), graph.nodes.Keys, reached, err.Some?)
  {
    resolver.Tag(Unnamed(desc), desc.digest);
    resolver.Tag(desc, ref);
    err, reached := IndexBelow(graph, files, Plain(KeyOf(desc)));
  }

  /** The first pass: tagged content and all that is below it. */
  method IndexTagged(m: RefMap, order: seq<string>, files: Files, resolver: R.Memory, graph: G.Memory)
    returns (r: Rebuild, tagged: set<Digest>)
    requires Listing(m, order)
    requires resolver.Valid() && Sound(graph, files) && resolver.index == map[] && graph.nodes == map[]
    modifies resolver, graph
    ensures resolver.Valid() && Sound(graph, files) && !r.Hangs?
    ensures r.Failed? <==> TagBroken(m, files)
    ensures r.Finished? ==> forall d :: d in tagged <==> DigestTagged(m, d)
    ensures r.Finished? ==> Rebuilt(files, m, TagRefs(m), graph.nodes.Keys)
    ensures r.Finished? ==>
      IndexFile.Within(m, Pick(order, TagRefs(m))) && resolver.index == Retagged(m, Pick(order, TagRefs(m)))
  {
    tagged := {};
    for i := 0 to |order|
      invariant resolver.Valid() && Sound(graph, files)
      invariant TaggedUpTo(m, files, order, i, tagged, graph.nodes.Keys, resolver.index)
    {
      var ref := order[i];
      ghost var nodes, index := graph.nodes.Keys, resolver.index;
      if ref != m[ref].digest {
        var err, reached := IndexTag(m[ref], ref, files, resolver, graph);
        if err.Some? {
          assert BrokenBelow(files, m, ref);
          return Failed(err.value), tagged;
        }
        TagNext(m, files, order, i, tagged, nodes, index, reached, graph.nodes.Keys);
        tagged := tagged + {m[ref].digest};
      } else {
        TagSkip(m, files, order, i, tagged, nodes, index);
      }
    }
    assert order[..|order|] == order;
    TaggingDone(m, files, order, tagged, graph.nodes.Keys, resolver.index);
    r := Finished;
  }

  // ----- the second pass -----

  /** A digest reference to content without a tag. */
  ghost predicate Untagged(m: RefMap, ref: string) {
    ref in m && !IsTagRef(m, ref) && !DigestTagged(m, m[ref].digest)
  }

  /** Content without a tag that names a subject. */
  ghost predicate Referring(m: RefMap, files: Files, ref: string) {
    Untagged(m, ref) && Subject(files, KeyOf(m[ref])).Ok? && Subject(files, KeyOf(m[ref])).value.Some?
  }

  /** What that means: the reference is a digest and the only one to it, and the stored manifest names a subject. */
  lemma ReferringExactly(m: RefMap, files: Files, ref: string)
    ensures Untagged(m, ref) <==>
      ref in m && m[ref].digest == ref && forall q :: q in m && m[q].digest == ref ==> q == ref
    ensures Referring(m, files, ref) <==> Untagged(m, ref) && exists k :: NamesSubject(files, KeyOf(m[ref]), k)
  {
    if ref in m && m[ref].digest == ref {
      if q :| q in m && m[q].digest == ref && q != ref {
        assert IsTagRef(m, q);
      }
      var subject := Subject(files, KeyOf(m[ref]));
      forall k
        ensures subject == Ok(Some(k)) <==> NamesSubject(files, KeyOf(m[ref]), k)
      {
        SubjectIsNamed(files, KeyOf(m[ref]), k);
      }
      if subject.Ok? && subject.value.Some? {
        assert NamesSubject(files, KeyOf(m[ref]), subject.value.value);
      }
    }
  }

  /** The content has a subject that is not among `nodes`. */
  ghost predicate Stuck(m: RefMap, files: Files, nodes: set<Key>, ref: string) {
    Referring(m, files, ref) && Subject(files, KeyOf(m[ref])).value.value !in nodes
  }

  ghost function Attached(m: RefMap, files: Files, done: seq<string>): set<string> {
    set ref | ref in done && Referring(m, files, ref)
  }

  /** Content without a tag whose subject is not stored below any tag. */
  ghost predicate Stranded(m: RefMap, files: Files, ref: string) {
    Referring(m, files, ref) && !Justified(files, m, TagRefs(m), Subject(files, KeyOf(m[ref])).value.value)
  }

  /** ... nor below the content that was attached because of the references before it. */
  ghost predicate StrandedAfter(m: RefMap, files: Files, done: seq<string>, ref: string) {
    Referring(m, files, ref)
    && !Justified(files, m, TagRefs(m) + Attached(m, files, done), Subject(files, KeyOf(m[ref])).value.value)
  }

  lemma StrandedBefore(m: RefMap, files: Files, done: seq<string>, ref: string)
    ensures StrandedAfter(m, files, done, ref) ==> Stranded(m, files, ref)
    ensures done == [] ==> (StrandedAfter(m, files, done, ref) <==> Stranded(m, files, ref))
  {
    var refs := TagRefs(m) + Attached(m, files, done);
    assert done == [] ==> refs == TagRefs(m);
    assert forall r :: r in TagRefs(m) ==> r in refs;
  }

  lemma StuckIsStranded(m: RefMap, files: Files, nodes: set<Key>, done: seq<string>, ref: string)
    requires Rebuilt(files, m, TagRefs(m) + Attached(m, files, done), nodes)
    ensures Stuck(m, files, nodes, ref) <==> StrandedAfter(m, files, done, ref)
  {
    if Referring(m, files, ref) {
      RebuiltExact(files, m, TagRefs(m) + Attached(m, files, done), nodes, Subject(files, KeyOf(m[ref])).value.value);
    }
  }

  /** Content without a tag that cannot be read, or names a subject and has something below it that cannot be read. */
  ghost predicate FailsAt(m: RefMap, files: Files, ref: string) {
    Untagged(m, ref)
    && (Subject(files, KeyOf(m[ref])).Err? || (Subject(files, KeyOf(m[ref])).value.Some? && BrokenBelow(files, m, ref)))
  }

  /** The second pass comes to reference `i` and does not get past it. */
  ghost predicate HangsAt(m: RefMap, files: Files, order: seq<string>, i: nat) {
    && i < |order| && StrandedAfter(m, files, order[..i], order[i])
    && forall j :: 0 <= j < i ==> !FailsAt(m, files, order[j])
  }

  ghost predicate Untroubled(m: RefMap, files: Files, order: seq<string>, i: nat) {
    i < |order| ==> !StrandedAfter(m, files, order[..i], order[i]) && !FailsAt(m, files, order[i])
  }

  /**
   Whether the rebuild hangs and whether it finishes, from the references, their order and the stored manifests alone.
   */
  ghost predicate WillHang(m: RefMap, files: Files, order: seq<string>) {
    !TagBroken(m, files) && exists i: nat :: HangsAt(m, files, order, i)
  }

  ghost predicate WillFinish(m: RefMap, files: Files, order: seq<string>) {
    !TagBroken(m, files) && forall i: nat {:trigger Untroubled(m, files, order, i)} :: Untroubled(m, files, order, i)
  }

  /** The first reference that is troubled decides. */
  lemma FirstTrouble(m: RefMap, files: Files, order: seq<string>, i: nat)
    requires !TagBroken(m, files) && i <= |order|
    requires forall j {:trigger Untroubled(m, files, order, j)} :: 0 <= j < i ==> Untroubled(m, files, order, j)
    ensures i == |order| ==> WillFinish(m, files, order) && !WillHang(m, files, order)
    ensures i < |order| && StrandedAfter(m, files, order[..i], order[i]) ==>
      WillHang(m, files, order) && !WillFinish(m, files, order)
    ensures i < |order| && !StrandedAfter(m, files, order[..i], order[i]) && FailsAt(m, files, order[i]) ==>
      !WillHang(m, files, order) && !WillFinish(m, files, order)
  {
    forall k: nat
      ensures HangsAt(m, files, order, k) ==> k >= i
    {
      if k < i {
        assert Untroubled(m, files, order, k);
      }
    }
    forall j: nat | j < i
      ensures !FailsAt(m, files, order[j])
    {
      assert Untroubled(m, files, order, j);
    }
    if i < |order| {
      assert StrandedAfter(m, files, order[..i], order[i]) ==> HangsAt(m, files, order, i);
      assert StrandedAfter(m, files, order[..i], order[i]) || FailsAt(m, files, order[i]) ==>
        !Untroubled(m, files, order, i);
    } else {
      assert forall j: nat :: Untroubled(m, files, order, j);
    }
  }

  /**
   Some order makes the rebuild hang if and only if some content is stranded and everything below the tags can be
   read.
   */
  lemma SomeOrderHangs(m: RefMap, files: Files)
    ensures (exists order :: Listing(m, order) && WillHang(m, files, order))
      <==> !TagBroken(m, files) && exists ref :: Stranded(m, files, ref)
  {
    if order :| Listing(m, order) && WillHang(m, files, order) {
      var i: nat :| HangsAt(m, files, order, i);
      StrandedBefore(m, files, order[..i], order[i]);
    }
    if ref :| !TagBroken(m, files) && Stranded(m, files, ref) {
      var order := ListingFrom(m, ref);
      assert order[..0] == [];
      StrandedBefore(m, files, [], ref);
      assert HangsAt(m, files, order, 0);
    }
  }

  /** A referrer that was pushed without a tag, and whose subject is not stored, is such content. */
  lemma StrandedExists() returns (m: RefMap, files: Files)
    ensures (exists ref :: Stranded(m, files, ref)) && !TagBroken(m, files)
  {
    var subject := Plain(Key(ImageManifest, "s", 1));
    var r := Plain(Key(ImageManifest, "r", 1));
    m, files := map["r" := r], map["r" := File(1, Json(Some(subject), subject, [], [], []))];
    assert forall ref :: !IsTagRef(m, ref);
    assert Subject(files, KeyOf(r)) == Ok(Some(KeyOf(subject)));
    assert TagRefs(m) == {};
    assert Stranded(m, files, "r");
  }

  /** What becomes of content without a tag: it stays if it has a subject that stays, and goes if it has none. */
  ghost predicate SettledAt(m: RefMap, files: Files, nodes: set<Key>, kept: set<string>, ref: string) {
    Untagged(m, ref) ==>
      && Subject(files, KeyOf(m[ref])).Ok?
      && var subject := Subject(files, KeyOf(m[ref])).value;
        if ref in kept then subject.Some? && subject.value in nodes else subject.None?
  }

  ghost predicate Settled(m: RefMap, files: Files, nodes: set<Key>, kept: set<string>, refs: seq<string>) {
    forall ref {:trigger SettledAt(m, files, nodes, kept, ref)} :: ref in refs ==> SettledAt(m, files, nodes, kept, ref)
  }

  lemma SettleMore(m: RefMap, files: Files, nodes: set<Key>, nodes': set<Key>, kept: set<string>,
                   kept': set<string>, refs: seq<string>, ref: string)
    requires Settled(m, files, nodes, kept, refs) && nodes <= nodes' && SettledAt(m, files, nodes', kept', ref)
    requires kept' == kept || (kept' == kept + {ref} && Untagged(m, ref))
    ensures Settled(m, files, nodes', kept', refs + [ref])
  {
    forall q | q in refs + [ref]
      ensures SettledAt(m, files, nodes', kept', q)
    {
      if q != ref {
        assert q in refs && SettledAt(m, files, nodes, kept, q);
      }
    }
  }

  /**
   One reference in the second pass. The chain of subjects is not followed: the loop looks at the subject of the
   content itself again and again, so it does not end when that subject is not in the graph.
   */
  method Attach(m: RefMap, ref: string, files: Files, tagged: set<Digest>, resolver: R.Memory, graph: G.Memory)
    returns (r: Rebuild, attached: bool, ghost reached: set<Key>)
    requires resolver.Valid() && Sound(graph, files) && ref in m && forall d :: d in tagged <==> DigestTagged(m, d)
    modifies resolver, graph
    ensures resolver.Valid() && Sound(graph, files)
    ensures r.Hangs? <==> Stuck(m, files, old(graph.nodes.Keys), ref)
    ensures r.Failed? <==> FailsAt(m, files, ref) && !Stuck(m, files, old(graph.nodes.Keys), ref)
    ensures r.Finished? ==> (attached <==> Referring(m, files, ref))
    ensures r.Finished? ==> SettledAt(m, files, old(graph.nodes.Keys), if attached then {ref} else {}, ref)
    ensures r.Finished? && attached ==> Untagged(m, ref) && resolver.index == Retag(old(resolver.index), ref, m[ref])
    ensures r.Finished? && attached ==>
      Outcome(files, KeyOf(m[ref]), old(graph.nodes.Keys), graph.nodes.Keys, reached, false)
    ensures r.Finished? && !attached ==> graph.nodes == old(graph.nodes) && resolver.index == old(resolver.index)
  {
    r, attached, reached := Finished, false, {};
    var desc := m[ref];
    if ref != desc.digest || desc.digest in tagged {
      return;
    }
    var subject := Subject(files, KeyOf(desc));
    if subject.Err? {
      r := Failed(subject.error);
    } else if subject.value.Some? {
      if subject.value.value !in graph.nodes {
        return Hangs, false, {};
      }
      resolver.Tag(Unnamed(desc), desc.digest);
      var err;
      err, reached := IndexBelow(graph, files, Plain(KeyOf(desc)));
      attached := true;
      if err.Some? {
        assert BrokenBelow(files, m, ref);
        r := Failed(err.value);
      } else {
        NothingBroken(files, KeyOf(m[ref]), reached);
      }
    }
  }

  /** The state of the second pass: `kept` of the references in `done` have been added to the tags. */
  ghost predicate Pass(m: RefMap, files: Files, tags: set<string>, kept: set<string>, done: seq<string>,
                       nodes: set<Key>)
  {
    && Rebuilt(files, m, tags + kept, nodes)
    && Settled(m, files, nodes, kept, done)
    && (forall ref :: ref in kept ==> ref in done && Untagged(m, ref))
  }

  lemma PassAttached(m: RefMap, files: Files, tags: set<string>, kept: set<string>, done: seq<string>, nodes: set<Key>,
                     ref: string, reached: set<Key>, nodes': set<Key>)
    requires Pass(m, files, tags, kept, done, nodes) && Untagged(m, ref) && ref !in done
    requires Outcome(files, KeyOf(m[ref]), nodes, nodes', reached, false) && SettledAt(m, files, nodes, {ref}, ref)
    ensures Pass(m, files, tags, kept + {ref}, done + [ref], nodes')
  {
    RebuiltMore(files, m, tags + kept, nodes, ref, reached, nodes');
    assert tags + kept + {ref} == tags + (kept + {ref});
    SettleMore(m, files, nodes, nodes', kept, kept + {ref}, done, ref);
  }

  lemma PassSkipped(m: RefMap, files: Files, tags: set<string>, kept: set<string>, done: seq<string>, nodes: set<Key>,
                    ref: string)
    requires Pass(m, files, tags, kept, done, nodes) && ref !in done && SettledAt(m, files, nodes, {}, ref)
    ensures Pass(m, files, tags, kept, done + [ref], nodes)
  {
    assert SettledAt(m, files, nodes, kept, ref);
    SettleMore(m, files, nodes, nodes, kept, kept, done, ref);
  }

  ghost function Referrings(m: RefMap, files: Files): set<string> {
    set ref | ref in m && Referring(m, files, ref)
  }

  /** The second pass has come to reference `i` without trouble; `tags` is the order of the first pass. */
  ghost predicate Halfway(m: RefMap, files: Files, tags: seq<string>, order: seq<string>, i: nat, kept: set<string>,
                          nodes: set<Key>, index: RefMap)
  {
    && i <= |order| && kept == Attached(m, files, order[..i])
    && Pass(m, files, TagRefs(m), kept, order[..i], nodes)
    && IndexedBy(m, tags + Pick(order[..i], Referrings(m, files)), index)
    && forall j: nat {:trigger Untroubled(m, files, order, j)} :: j < i ==> Untroubled(m, files, order, j)
  }

  ghost predicate IndexedBy(m: RefMap, refs: seq<string>, index: RefMap) {
    IndexFile.Within(m, refs) && index == Retagged(m, refs)
  }

  lemma IndexedMore(m: RefMap, tags: seq<string>, order: seq<string>, i: nat, keep: set<string>, index: RefMap)
    requires i < |order| && order[i] in m && IndexedBy(m, tags + Pick(order[..i], keep), index)
    ensures order[i] in keep ==> IndexedBy(m, tags + Pick(order[..i + 1], keep), Retag(index, order[i], m[order[i]]))
    ensures order[i] !in keep ==> IndexedBy(m, tags + Pick(order[..i + 1], keep), index)
  {
    PickMore(order, i, keep);
    if order[i] in keep {
      RetagMore(m, tags + Pick(order[..i], keep), order[i]);
      assert tags + Pick(order[..i], keep) + [order[i]] == tags + Pick(order[..i + 1], keep);
    }
  }

  lemma HalfwayStops(m: RefMap, files: Files, tags: seq<string>, order: seq<string>, i: nat, kept: set<string>,
                     nodes: set<Key>, index: RefMap)
    requires Halfway(m, files, tags, order, i, kept, nodes, index) && !TagBroken(m, files) && i < |order|
    ensures Stuck(m, files, nodes, order[i]) ==> WillHang(m, files, order) && !WillFinish(m, files, order)
    ensures !Stuck(m, files, nodes, order[i]) && FailsAt(m, files, order[i]) ==>
      !WillHang(m, files, order) && !WillFinish(m, files, order)
    ensures !Stuck(m, files, nodes, order[i]) && !FailsAt(m, files, order[i]) ==> Untroubled(m, files, order, i)
  {
    StuckIsStranded(m, files, nodes, order[..i], order[i]);
    FirstTrouble(m, files, order, i);
  }

  lemma AttachedMore(m: RefMap, files: Files, done: seq<string>, ref: string)
    requires Referring(m, files, ref)
    ensures Attached(m, files, done + [ref]) == Attached(m, files, done) + {ref}
  {
    var all := done + [ref];
    assert forall q :: q in all <==> q in done || q == ref;
  }

  lemma AttachStep(m: RefMap, files: Files, tags: seq<string>, order: seq<string>, i: nat, kept: set<string>,
                   nodes: set<Key>, index: RefMap, reached: set<Key>, nodes': set<Key>)
    requires Halfway(m, files, tags, order, i, kept, nodes, index) && i < |order| && NoRepeats(order)
    requires Untroubled(m, files, order, i) && Referring(m, files, order[i])
    requires SettledAt(m, files, nodes, {order[i]}, order[i])
    requires Outcome(files, KeyOf(m[order[i]]), nodes, nodes', reached, false)
    ensures Halfway(m, files, tags, order, i + 1, kept + {order[i]}, nodes', Retag(index, order[i], m[order[i]]))
  {
    assert order[..i + 1] == order[..i] + [order[i]];
    AttachedMore(m, files, order[..i], order[i]);
    PassAttached(m, files, TagRefs(m), kept, order[..i], nodes, order[i], reached, nodes');
    IndexedMore(m, tags, order, i, Referrings(m, files), index);
  }

  lemma SkipStep(m: RefMap, files: Files, tags: seq<string>, order: seq<string>, i: nat, kept: set<string>,
                 nodes: set<Key>, index: RefMap)
    requires Halfway(m, files, tags, order, i, kept, nodes, index) && i < |order| && NoRepeats(order) && order[i] in m
    requires Untroubled(m, files, order, i) && !Referring(m, files, order[i])
    requires SettledAt(m, files, nodes, {}, order[i])
    ensures Halfway(m, files, tags, order, i + 1, kept, nodes, index)
  {
    assert order[..i + 1] == order[..i] + [order[i]];
    PassSkipped(m, files, TagRefs(m), kept, order[..i], nodes, order[i]);
    IndexedMore(m, tags, order, i, Referrings(m, files), index);
  }

  /** The second pass, over the references in the given order. */
  method IndexReferrers(m: RefMap, order: seq<string>, files: Files, tagged: set<Digest>, ghost tags: seq<string>,
                        resolver: R.Memory, graph: G.Memory)
    returns (r: Rebuild, ghost kept: set<string>)
    requires resolver.Valid() && Sound(graph, files) && !TagBroken(m, files)
    requires forall d :: d in tagged <==> DigestTagged(m, d)
    requires IndexFile.Within(m, order) && NoRepeats(order)
    requires Pass(m, files, TagRefs(m), {}, [], graph.nodes.Keys) && IndexedBy(m, tags, resolver.index)
    modifies resolver, graph
    ensures resolver.Valid() && Sound(graph, files)
    ensures r.Finished? ==> Pass(m, files, TagRefs(m), kept, order, graph.nodes.Keys)
    ensures r.Finished? ==> IndexedBy(m, tags + Pick(order, Referrings(m, files)), resolver.index)
    ensures r.Hangs? <==> WillHang(m, files, order)
    ensures r.Finished? <==> WillFinish(m, files, order)
  {
    kept := {};
    FirstTrouble(m, files, order, 0);
    assert tags + [] == tags;
    for i := 0 to |order|
      invariant resolver.Valid() && Sound(graph, files)
      invariant Halfway(m, files, tags, order, i, kept, graph.nodes.Keys, resolver.index)
    {
      var ref := order[i];
      ghost var nodes, index := graph.nodes.Keys, resolver.index;
      HalfwayStops(m, files, tags, order, i, kept, nodes, index);
      var outcome, attached, reached := Attach(m, ref, files, tagged, resolver, graph);
      if !outcome.Finished? {
        return outcome, kept;
      }
      if attached {
        AttachStep(m, files, tags, order, i, kept, nodes, index, reached, graph.nodes.Keys);
        kept := kept + {ref};
      } else {
        SkipStep(m, files, tags, order, i, kept, nodes, index);
      }
    }
    assert order[..|order|] == order;
    FirstTrouble(m, files, order, |order|);
    r := Finished;
  }

  /** What a finished rebuild guarantees. */
  ghost predicate RebuildDone(m: RefMap, files: Files, nodes: set<Key>, index: RefMap, kept: set<string>) {
    && Rebuilt(files, m, TagRefs(m) + kept, nodes)
    && (forall ref {:trigger SettledAt(m, files, nodes, kept, ref)} :: SettledAt(m, files, nodes, kept, ref))
    && (StoreRefs(m) && Unambiguous(m) ==>
         Carried(m, TagRefs(m) + kept, index) && StoreRefs(index) && Unambiguous(index))
  }

  /** The references in the order in which the rebuild tags them again. */
  ghost function RebuildOrder(m: RefMap, files: Files, tagOrder: seq<string>, order: seq<string>): seq<string> {
    Pick(tagOrder, TagRefs(m)) + Pick(order, Referrings(m, files))
  }

  /** `gcIndex`: the rebuilt resolver and graph, from the references and the stored manifests. */
  method RebuildIndex(m: RefMap, tagOrder: seq<string>, order: seq<string>, files: Files)
    returns (r: Rebuild, resolver: R.Memory, graph: G.Memory, ghost kept: set<string>)
    requires Listing(m, tagOrder) && Listing(m, order)
    ensures fresh(resolver) && fresh(graph) && resolver.Valid() && Sound(graph, files)
    ensures r.Finished? ==> RebuildDone(m, files, graph.nodes.Keys, resolver.index, kept)
    ensures r.Finished? ==> IndexedBy(m, RebuildOrder(m, files, tagOrder, order), resolver.index)
    ensures r.Hangs? <==> WillHang(m, files, order)
    ensures r.Finished? <==> WillFinish(m, files, order)
  {
    resolver := new R.Memory();
    graph := new G.Memory();
    var tagged;
    r, tagged := IndexTagged(m, tagOrder, files, resolver, graph);
    kept := {};
    if !r.Finished? {
      return;
    }
    assert TagRefs(m) + {} == TagRefs(m);
    r, kept := IndexReferrers(m, order, files, tagged, Pick(tagOrder, TagRefs(m)), resolver, graph);
    if r.Finished? {
      PassDone(m, files, kept, tagOrder, order, graph.nodes.Keys, resolver.index);
    }
  }

  /**
   A rebuild that does not finish is one that hangs on stranded content or one that meets something it cannot read.
   */
  lemma {:induction false} Unfinished(m: RefMap, files: Files, order: seq<string>)
    requires Listing(m, order) && !WillFinish(m, files, order)
    ensures WillHang(m, files, order) ==> exists ref :: Stranded(m, files, ref)
    ensures !WillHang(m, files, order) ==> exists ref :: Unreadable(m, files, ref)
  {
    if WillHang(m, files, order) {
      var i: nat :| HangsAt(m, files, order, i);
      StrandedBefore(m, files, order[..i], order[i]);
    } else if TagBroken(m, files) {
      var ref :| IsTagRef(m, ref) && BrokenBelow(files, m, ref);
      assert Unreadable(m, files, ref);
    } else {
      var i := FirstTroubled(m, files, order, 0);
      FirstTrouble(m, files, order, i);
      assert Unreadable(m, files, order[i]);
    }
  }

  lemma {:induction false} FirstTroubled(m: RefMap, files: Files, order: seq<string>, from: nat) returns (i: nat)
    requires !TagBroken(m, files) && !WillFinish(m, files, order) && from <= |order|
    requires forall j {:trigger Untroubled(m, files, order, j)} :: 0 <= j < from ==> Untroubled(m, files, order, j)
    ensures i < |order| && !Untroubled(m, files, order, i)
    ensures forall j {:trigger Untroubled(m, files, order, j)} :: 0 <= j < i ==> Untroubled(m, files, order, j)
    decreases |order| - from
  {
    FirstTrouble(m, files, order, from);
    if Untroubled(m, files, order, from) {
      i := FirstTroubled(m, files, order, from + 1);
    } else {
      i := from;
    }
  }

  lemma PassDone(m: RefMap, files: Files, kept: set<string>, tagOrder: seq<string>, order: seq<string>, nodes: set<Key>,
                 index: RefMap)
    requires Listing(m, tagOrder) && Listing(m, order) && Pass(m, files, TagRefs(m), kept, order, nodes)
    requires IndexedBy(m, RebuildOrder(m, files, tagOrder, order), index)
    ensures RebuildDone(m, files, nodes, index, kept)
  {
    forall ref
      ensures SettledAt(m, files, nodes, kept, ref)
    {
    }
    if StoreRefs(m) && Unambiguous(m) {
      var refs := RebuildOrder(m, files, tagOrder, order);
      RetaggedCarries(m, refs);
      CarriedKeeps(m, SetOf(refs), index);
      forall r
        ensures CarriedAt(m, TagRefs(m) + kept, index, r)
      {
        assert CarriedAt(m, SetOf(refs), index, r);
        PickMembers(tagOrder, TagRefs(m), r);
      }
    }
  }

  /** The second pass tags nothing again that is a tag, so what `TagsSurviveExact` says holds of a finished rebuild. */
  lemma RebuildKeepsTags(m: RefMap, files: Files, order: seq<string>)
    requires StoreRefs(m) && Listing(m, order)
    ensures (forall tagOrder {:trigger RebuildOrder(m, files, tagOrder, order)} :: Listing(m, tagOrder) ==>
               IndexFile.Within(m, RebuildOrder(m, files, tagOrder, order))
               && TagsSurvive(m, Retagged(m, RebuildOrder(m, files, tagOrder, order)))) <==> Unambiguous(m)
  {
    var later := Pick(order, Referrings(m, files));
    PickWithin(m, order, Referrings(m, files));
    forall ref | ref in later
      ensures !IsTagRef(m, ref)
    {
      PickMembers(order, Referrings(m, files), ref);
    }
    TagsSurviveExact(m, later);
    forall tagOrder | Listing(m, tagOrder)
      ensures IndexFile.Within(m, RebuildOrder(m, files, tagOrder, order))
      ensures SurviveIn(m, tagOrder, later) <==> TagsSurvive(m, Retagged(m, RebuildOrder(m, files, tagOrder, order)))
    {
      PickWithin(m, tagOrder, TagRefs(m));
    }
  }

  /** Removes the blobs that are not to be kept; on a disk that is not sound removal can stop at an error. */
  method Sweep(files: Files, keep: set<Digest>, collectable: Digest -> bool, sound: bool)
    returns (left: Files, ok: bool)
    ensures forall d :: d in left ==> d in files && left[d] == files[d]
    ensures forall d :: d in files && (d in keep || !collectable(d)) ==> d in left
    ensures ok ==> forall d :: d in left && collectable(d) ==> d in keep
    ensures sound ==> ok
  {
    left, ok := files, true;
    var rest := files.Keys;
    while rest != {}
      invariant rest <= left.Keys && forall d :: d in left ==> d in files && left[d] == files[d]
      invariant forall d :: d in files && (d in keep || !collectable(d)) ==> d in left
      invariant forall d :: d in left && d !in rest && collectable(d) ==> d in keep
      decreases rest
    {
      var d :| d in rest;
      rest := rest - {d};
      var goesOn := *;
      if !sound && !goesOn {
        return left, false;
      }
      if collectable(d) && d !in keep {
        left := left - {d};
      }
    }
    ok := true;
  }
}
