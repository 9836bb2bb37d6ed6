/** The `index.json` file: what `saveIndex` writes, what `loadIndex` reads, and the round trip between them. */
module IndexFile {
  import opened Content

  const REF_NAME := "org.opencontainers.image.ref.name"

  type RefMap = map<string, Descriptor>

  /** `deleteAnnotationRefName`. */
  function Unnamed(d: Descriptor): Descriptor {
    d.(annotations := d.annotations - {REF_NAME})
  }

  function Named(d: Descriptor, ref: string): Descriptor {
    d.(annotations := d.annotations[REF_NAME := ref])
  }

  ghost predicate SameAnnotation(d: Descriptor, e: Descriptor, a: string) {
    && (a in d.annotations <==> a in e.annotations)
    && (a in d.annotations ==> d.annotations[a] == e.annotations[a])
  }

  /** The descriptors differ at most in the ref-name annotation. */
  ghost predicate Agree(d: Descriptor, e: Descriptor) {
    && d.mediaType == e.mediaType && d.digest == e.digest && d.size == e.size && d.artifactType == e.artifactType
    && forall a {:trigger SameAnnotation(d, e, a)} :: a != REF_NAME ==> SameAnnotation(d, e, a)
  }

  /** The descriptor carries this name, or none. */
  predicate Carries(d: Descriptor, ref: string) {
    REF_NAME in d.annotations && d.annotations[REF_NAME] == ref
  }

  lemma NamingAgrees(d: Descriptor, ref: string)
    ensures Agree(Unnamed(d), d) && REF_NAME !in Unnamed(d).annotations
    ensures Agree(Named(d, ref), d) && Carries(Named(d, ref), ref)
  {
    forall a | a != REF_NAME
      ensures SameAnnotation(Unnamed(d), d, a) && SameAnnotation(Named(d, ref), d, a)
    {
    }
  }

  lemma AgreeTransitive(d: Descriptor, e: Descriptor, f: Descriptor)
    requires Agree(d, e) && Agree(e, f)
    ensures Agree(d, f)
  {
    forall a | a != REF_NAME
      ensures SameAnnotation(d, f, a)
    {
      assert SameAnnotation(d, e, a) && SameAnnotation(e, f, a);
    }
  }

  predicate IsTagRef(m: RefMap, ref: string) {
    ref in m && ref != m[ref].digest
  }

  /** Some tag resolves to this digest. */
  ghost predicate DigestTagged(m: RefMap, d: Digest) {
    exists ref :: IsTagRef(m, ref) && m[ref].digest == d
  }

  /** The references that get an entry: all tags, and the digests of untagged content. */
  ghost predicate HasEntry(m: RefMap, ref: string) {
    ref in m && (IsTagRef(m, ref) || !DigestTagged(m, m[ref].digest))
  }

  predicate Within(m: RefMap, refs: seq<string>) {
    forall ref :: ref in refs ==> ref in m
  }

  function Entry(m: RefMap, ref: string): Descriptor
    requires ref in m
  {
    if IsTagRef(m, ref) then Named(m[ref], ref) else Unnamed(m[ref])
  }

  function Entries(m: RefMap, refs: seq<string>): seq<Descriptor>
    requires Within(m, refs)
  {
    seq(|refs|, i requires 0 <= i < |refs| => Entry(m, refs[i]))
  }

  predicate TagsFirst(m: RefMap, refs: seq<string>) {
    forall i, j :: 0 <= i < j < |refs| && IsTagRef(m, refs[j]) ==> IsTagRef(m, refs[i])
  }

  /** `refs` is an order in which the entries can be written: each once, tags before digests. */
  ghost predicate SaveOrder(m: RefMap, refs: seq<string>) {
    && Within(m, refs) && NoRepeats(refs) && TagsFirst(m, refs)
    && forall ref :: ref in refs <==> HasEntry(m, ref)
  }

  // ----- saving -----

  lemma EntriesAppend(m: RefMap, refs: seq<string>, ref: string)
    requires ref in m && Within(m, refs)
    ensures Within(m, refs + [ref])
    ensures Entries(m, refs + [ref]) == Entries(m, refs) + [Entry(m, ref)]
  {
  }

  /** The first pass: one entry per tag, and the digests they mark. */
  method SaveTags(m: RefMap) returns (manifests: seq<Descriptor>, tagged: set<Digest>, ghost refs: seq<string>)
    ensures Within(m, refs) && NoRepeats(refs)
    ensures forall ref :: ref in refs <==> IsTagRef(m, ref)
    ensures manifests == Entries(m, refs)
    ensures forall d :: d in tagged <==> DigestTagged(m, d)
  {
    manifests, tagged, refs := [], {}, [];
    var rest := m.Keys;
    while rest != {}
      invariant rest <= m.Keys && Within(m, refs) && NoRepeats(refs)
      invariant forall ref :: ref in refs <==> ref !in rest && IsTagRef(m, ref)
      invariant manifests == Entries(m, refs)
      invariant forall d :: d in tagged <==> exists ref :: ref in refs && m[ref].digest == d
      decreases rest
    {
      var ref :| ref in rest;
      var desc := m[ref];
      if ref != desc.digest {
        EntriesAppend(m, refs, ref);
        manifests := manifests + [Named(desc, ref)];
        tagged := tagged + {desc.digest};
        ghost var before := refs;
        refs := refs + [ref];
        assert refs[|before|] == ref;
        assert forall r :: r in refs <==> r in before || r == ref;
      }
      rest := rest - {ref};
    }
  }

  /** The file is one that saving these references can write. */
  ghost predicate Saved(m: RefMap, file: seq<Descriptor>) {
    exists refs :: SaveOrder(m, refs) && file == Entries(m, refs)
  }

  /** `saveIndex`: tags first, then the digests of content without a tag, in an order that is not determined. */
  method SaveIndex(m: RefMap) returns (manifests: seq<Descriptor>)
    ensures Saved(m, manifests)
  {
    var tagged;
    ghost var refs;
    manifests, tagged, refs := SaveTags(m);
    var rest := m.Keys;
    while rest != {}
      invariant rest <= m.Keys && Within(m, refs) && NoRepeats(refs) && TagsFirst(m, refs)
      invariant forall ref :: ref in refs <==> IsTagRef(m, ref) || (ref !in rest && HasEntry(m, ref))
      invariant manifests == Entries(m, refs)
      decreases rest
    {
      var ref :| ref in rest;
      var desc := m[ref];
      if ref == desc.digest && desc.digest !in tagged {
        EntriesAppend(m, refs, ref);
        manifests := manifests + [Unnamed(desc)];
        ghost var before := refs;
        refs := refs + [ref];
        assert forall r :: r in refs <==> r in before || r == ref;
      }
      rest := rest - {ref};
    }
  }

  /**
   `e` is the entry for `ref`: the descriptor as it was tagged, with the name of a tag, or without any for a digest
   that no tag resolves to.
   */
  ghost predicate EntryFor(m: RefMap, ref: string, e: Descriptor) {
    && ref in m && Agree(e, m[ref])
    && if ref != m[ref].digest then Carries(e, ref)
       else REF_NAME !in e.annotations && forall q :: q in m && m[q].digest == ref ==> q == ref
  }

  lemma EntriesAreFor(m: RefMap, refs: seq<string>, i: nat, ref: string)
    requires SaveOrder(m, refs) && i < |refs|
    ensures EntryFor(m, ref, Entry(m, refs[i])) <==> ref == refs[i]
  {
    var r := refs[i];
    assert r in refs && HasEntry(m, r);
    NamingAgrees(m[r], r);
    forall q | !IsTagRef(m, r) && q in m && m[q].digest == r
      ensures q == r
    {
      assert !IsTagRef(m, q);
    }
  }

  ghost predicate FromSome(m: RefMap, e: Descriptor) {
    exists ref :: EntryFor(m, ref, e)
  }

  ghost predicate EntryIn(m: RefMap, ref: string, file: seq<Descriptor>) {
    exists i :: 0 <= i < |file| && EntryFor(m, ref, file[i])
  }

  /** A tag, or a digest that no tag resolves to. */
  ghost predicate Recorded(m: RefMap, ref: string) {
    ref in m && (ref != m[ref].digest || forall q :: q in m && m[q].digest == ref ==> q == ref)
  }

  /** A saved file has an entry for each tag, and for each digest that no tag resolves to; each once, and no others. */
  lemma SavedExactly(m: RefMap, file: seq<Descriptor>)
    requires Saved(m, file)
    ensures forall i :: 0 <= i < |file| ==> FromSome(m, file[i])
    ensures forall ref :: Recorded(m, ref) ==> EntryIn(m, ref, file)
    ensures forall i, j, ref ::
      0 <= i < |file| && 0 <= j < |file| && EntryFor(m, ref, file[i]) && EntryFor(m, ref, file[j]) ==> i == j
  {
    var refs :| SaveOrder(m, refs) && file == Entries(m, refs);
    forall i, ref | 0 <= i < |refs|
      ensures EntryFor(m, ref, file[i]) <==> ref == refs[i]
    {
      EntriesAreFor(m, refs, i, ref);
    }
    forall i | 0 <= i < |file|
      ensures FromSome(m, file[i])
    {
      assert EntryFor(m, refs[i], file[i]);
    }
    forall ref | Recorded(m, ref)
      ensures EntryIn(m, ref, file)
    {
      assert HasEntry(m, ref) && ref in refs;
      var i :| 0 <= i < |refs| && refs[i] == ref;
      assert EntryFor(m, ref, file[i]);
    }
  }

  // ----- loading -----

  /** The reference an entry carries. */
  function RefName(d: Descriptor): string {
    if REF_NAME in d.annotations then d.annotations[REF_NAME] else ""
  }

  function LoadOne(m: RefMap, d: Descriptor): RefMap {
    var byDigest := m[d.digest := Unnamed(d)];
    if RefName(d) != "" then byDigest[RefName(d) := d] else byDigest
  }

  function Load(m: RefMap, ds: seq<Descriptor>): RefMap {
    if ds == [] then m else LoadOne(Load(m, ds[..|ds| - 1]), ds[|ds| - 1])
  }

  // ----- round trip -----

  /** What the store keeps: no empty reference, tagged content is also known by its digest, digests identify content. */
  ghost predicate StoreRefs(m: RefMap) {
    && "" !in m
    && (forall ref {:trigger DigestKnown(m, ref)} :: DigestKnown(m, ref))
    && (forall r, q {:trigger DigestIdentifies(m, r, q)} :: DigestIdentifies(m, r, q))
  }

  ghost predicate DigestKnown(m: RefMap, ref: string) {
    ref in m ==> m[ref].digest in m
  }

  ghost predicate DigestIdentifies(m: RefMap, r: string, q: string) {
    r in m && q in m && m[r].digest == m[q].digest ==> KeyOf(m[r]) == KeyOf(m[q])
  }

  /** If `r` is the digest of what `q` resolves to, then `r` resolves to content of that digest. */
  ghost predicate UnambiguousAt(m: RefMap, r: string, q: string) {
    r in m && q in m && r == m[q].digest ==> m[r].digest == r
  }

  /** No reference is the digest of other content. */
  ghost predicate Unambiguous(m: RefMap) {
    forall r, q {:trigger UnambiguousAt(m, r, q)} :: UnambiguousAt(m, r, q)
  }

  /** The same references, each resolving to the same content. */
  ghost predicate SameContent(m: RefMap, l: RefMap) {
    l.Keys == m.Keys && forall ref :: ref in m ==> KeyOf(l[ref]) == KeyOf(m[ref])
  }

  /** An entry of `refs` has digest `d`. */
  ghost predicate DigestIn(m: RefMap, refs: seq<string>, d: Digest)
    requires Within(m, refs)
  {
    exists q :: q in refs && m[q].digest == d
  }

  /** `d` is what one of `refs` resolves to, up to the ref-name annotation. */
  ghost predicate AgreesIn(m: RefMap, refs: seq<string>, d: Descriptor)
    requires Within(m, refs)
  {
    exists q :: q in refs && Agree(d, m[q])
  }

  ghost predicate TagIn(m: RefMap, refs: seq<string>, r: string) {
    r in refs && IsTagRef(m, r)
  }

  /** What reference `r` resolves to after the entries of `refs` have been loaded. */
  ghost predicate LoadedAt(m: RefMap, refs: seq<string>, l: RefMap, r: string)
    requires Within(m, refs)
  {
    && (r in l <==> TagIn(m, refs, r) || DigestIn(m, refs, r))
    && (TagIn(m, refs, r) ==> r in l && l[r] == Named(m[r], r))
    && (r in l && !TagIn(m, refs, r) ==>
         l[r].digest == r && REF_NAME !in l[r].annotations && AgreesIn(m, refs, l[r]))
  }

  lemma MoreRefs(m: RefMap, refs: seq<string>, ref: string, r: string)
    requires Within(m, refs) && ref in m
    ensures Within(m, refs + [ref])
    ensures TagIn(m, refs + [ref], r) <==> TagIn(m, refs, r) || (r == ref && IsTagRef(m, ref))
    ensures DigestIn(m, refs + [ref], r) <==> DigestIn(m, refs, r) || m[ref].digest == r
    ensures forall d :: AgreesIn(m, refs + [ref], d) <==> AgreesIn(m, refs, d) || Agree(d, m[ref])
  {
    var all := refs + [ref];
    assert forall q :: q in all <==> q in refs || q == ref;
    assert ref in all;
    forall d
      ensures AgreesIn(m, all, d) <==> AgreesIn(m, refs, d) || Agree(d, m[ref])
    {
    }
  }

  lemma LoadStep(m: RefMap, refs: seq<string>, ref: string, l: RefMap, r: string)
    requires "" !in m && Unambiguous(m) && ref in m && Within(m, refs)
    requires LoadedAt(m, refs, l, r)
    ensures Within(m, refs + [ref])
    ensures LoadedAt(m, refs + [ref], LoadOne(l, Entry(m, ref)), r)
  {
    MoreRefs(m, refs, ref, r);
    assert UnambiguousAt(m, r, ref);
    NamingAgrees(m[ref], ref);
    NamingAgrees(Named(m[ref], ref), ref);
    NamingAgrees(Unnamed(m[ref]), ref);
    AgreeTransitive(Unnamed(Entry(m, ref)), Entry(m, ref), m[ref]);
    if r == ref && IsTagRef(m, ref) {
      assert LoadOne(l, Entry(m, ref))[r] == Named(m[r], r);
    }
  }

  lemma LoadAppend(m: RefMap, refs: seq<string>, ref: string)
    requires ref in m && Within(m, refs)
    ensures Within(m, refs + [ref])
    ensures Load(map[], Entries(m, refs + [ref])) == LoadOne(Load(map[], Entries(m, refs)), Entry(m, ref))
  {
    EntriesAppend(m, refs, ref);
    var all := Entries(m, refs + [ref]);
    assert all[..|all| - 1] == Entries(m, refs);
  }

  lemma {:induction false} LoadEntries(m: RefMap, refs: seq<string>, r: string)
    requires "" !in m && Unambiguous(m) && Within(m, refs)
    ensures LoadedAt(m, refs, Load(map[], Entries(m, refs)), r)
  {
    if refs != [] {
      var front, ref := refs[..|refs| - 1], refs[|refs| - 1];
      assert refs == front + [ref];
      assert Within(m, front);
      LoadEntries(m, front, r);
      LoadStep(m, front, ref, Load(map[], Entries(m, front)), r);
      LoadAppend(m, front, ref);
    }
  }

  /** Each digest of a reference is the digest of an entry. */
  lemma DigestHasEntry(m: RefMap, refs: seq<string>, r: string)
    requires SaveOrder(m, refs) && r in m
    ensures DigestIn(m, refs, m[r].digest)
  {
    if !HasEntry(m, r) {
      var q :| IsTagRef(m, q) && m[q].digest == m[r].digest;
      assert HasEntry(m, q);
    }
  }

  lemma EntryDigestKnown(m: RefMap, refs: seq<string>, d: Digest)
    requires StoreRefs(m) && Within(m, refs)
    ensures DigestIn(m, refs, d) ==> d in m
  {
    if DigestIn(m, refs, d) {
      var q :| q in refs && m[q].digest == d;
      assert DigestKnown(m, q);
    }
  }

  /**
   What one reference resolves to after saving and loading: the same content. A tag comes back as it was, with its name;
   a digest without a name, as it was or, if the content has tags, as one of them was.
   */
  ghost predicate RestoredAt(m: RefMap, l: RefMap, r: string) {
    && (r in l <==> r in m)
    && (r in m ==> r in l && KeyOf(l[r]) == KeyOf(m[r]))
    && (IsTagRef(m, r) ==> r in l && l[r] == Named(m[r], r) && Agree(l[r], m[r]) && Carries(l[r], r))
    && (r in m && !IsTagRef(m, r) ==> r in l && REF_NAME !in l[r].annotations && DigestFrom(m, l[r], r))
    && (r in m && !IsTagRef(m, r) && !DigestTagged(m, r) ==> r in l && Agree(l[r], m[r]))
  }

  /** `d` is what some reference to content with digest `r` resolves to, up to the ref-name annotation. */
  ghost predicate DigestFrom(m: RefMap, d: Descriptor, r: string) {
    exists q :: q in m && m[q].digest == r && Agree(d, m[q])
  }

  lemma Restored(m: RefMap, refs: seq<string>, r: string)
    requires StoreRefs(m) && Unambiguous(m) && SaveOrder(m, refs)
    ensures RestoredAt(m, Load(map[], Entries(m, refs)), r)
  {
    var l := Load(map[], Entries(m, refs));
    LoadEntries(m, refs, r);
    EntryDigestKnown(m, refs, r);
    if r in m {
      DigestHasEntry(m, refs, r);
      assert IsTagRef(m, r) ==> HasEntry(m, r);
      NamingAgrees(m[r], r);
      if !IsTagRef(m, r) {
        assert !TagIn(m, refs, r);
        var q :| q in refs && Agree(l[r], m[q]);
        assert DigestIdentifies(m, q, r);
        assert DigestFrom(m, l[r], r);
        assert !DigestTagged(m, r) ==> !IsTagRef(m, q);
      }
    }
  }

  /**
   The round trip. Loading what was saved gives back the same references with the same content; a tag comes back
   exactly, with its name in the ref-name annotation; a digest comes back without that annotation.
   */
  lemma RoundTrip(m: RefMap, refs: seq<string>)
    requires StoreRefs(m) && Unambiguous(m) && SaveOrder(m, refs)
    ensures forall r :: RestoredAt(m, Load(map[], Entries(m, refs)), r)
    ensures SameContent(m, Load(map[], Entries(m, refs)))
  {
    var l := Load(map[], Entries(m, refs));
    forall r
      ensures RestoredAt(m, l, r)
    {
      Restored(m, refs, r);
    }
    forall r
      ensures r in l.Keys <==> r in m.Keys
      ensures r in m ==> r in l && KeyOf(l[r]) == KeyOf(m[r])
    {
      assert RestoredAt(m, l, r);
    }
  }

  lemma SameContentKeeps(m: RefMap, l: RefMap)
    requires SameContent(m, l) && StoreRefs(m) && Unambiguous(m)
    ensures StoreRefs(l) && Unambiguous(l)
  {
    forall r
      ensures DigestKnown(l, r)
    {
      assert DigestKnown(m, r);
    }
    forall r, q
      ensures DigestIdentifies(l, r, q) && UnambiguousAt(l, r, q)
    {
      assert DigestIdentifies(m, r, q) && UnambiguousAt(m, r, q);
    }
  }

  /** A second round trip changes no tag: the first one has already written its name into the annotation. */
  lemma SecondRoundTrip(m: RefMap, refs: seq<string>, l: RefMap, refs': seq<string>, ref: string)
    requires StoreRefs(m) && Unambiguous(m) && SaveOrder(m, refs)
    requires l == Load(map[], Entries(m, refs)) && SaveOrder(l, refs') && IsTagRef(m, ref)
    ensures var l' := Load(map[], Entries(l, refs')); ref in l && ref in l' && l'[ref] == l[ref] == Named(m[ref], ref)
  {
    RoundTrip(m, refs);
    SameContentKeeps(m, l);
    assert RestoredAt(m, l, ref);
    Restored(l, refs', ref);
  }

  // ----- a reference that is the digest of other content -----

  /** The members of a set in some order. */
  lemma {:induction false} Listed(s: set<string>) returns (refs: seq<string>)
    ensures NoRepeats(refs) && forall ref :: ref in refs <==> ref in s
    decreases s
  {
    if s == {} {
      refs := [];
    } else {
      var x :| x in s;
      var rest := Listed(s - {x});
      refs := [x] + rest;
      assert forall ref :: ref in refs <==> ref == x || ref in rest;
    }
  }

  /** Any tag can be the first to be written. */
  lemma OrderStartingWith(m: RefMap, r: string) returns (refs: seq<string>)
    requires IsTagRef(m, r)
    ensures SaveOrder(m, refs) && |refs| > 0 && refs[0] == r
  {
    var tags := Listed(set ref | ref in m && IsTagRef(m, ref) && ref != r);
    var digests := Listed(set ref | ref in m && !IsTagRef(m, ref) && HasEntry(m, ref));
    refs := [r] + tags + digests;
    assert forall ref :: ref in refs <==> ref == r || ref in tags || ref in digests;
    forall i | 0 <= i < |refs|
      ensures 0 < i <= |tags| ==> refs[i] == tags[i - 1] && refs[i] in tags
      ensures |tags| < i ==> refs[i] == digests[i - |tags| - 1] && refs[i] in digests
    {
    }
  }

  /** Written first, such a reference is overwritten by the entry whose digest it is, and never restored. */
  lemma {:induction false} Overwritten(m: RefMap, refs: seq<string>, r: string)
    requires "" !in m && IsTagRef(m, r) && Within(m, refs) && NoRepeats(refs) && |refs| > 0 && refs[0] == r
    requires DigestIn(m, refs, r)
    ensures var l := Load(map[], Entries(m, refs)); r in l && l[r].digest == r
  {
    var front, ref := refs[..|refs| - 1], refs[|refs| - 1];
    assert refs == front + [ref];
    assert Within(m, front);
    LoadAppend(m, front, ref);
    if m[ref].digest != r {
      MoreRefs(m, front, ref, r);
      Overwritten(m, front, r);
    }
    LoadOther(Load(map[], Entries(m, front)), m, ref, r);
  }

  /** Loading an entry writes its digest and its own reference, nothing else. */
  lemma LoadOther(l: RefMap, m: RefMap, ref: string, r: string)
    requires ref in m && "" !in m && r != ref
    ensures var l' := LoadOne(l, Entry(m, ref));
      if m[ref].digest == r then r in l' && l'[r].digest == r else (r in l' <==> r in l) && (r in l ==> l'[r] == l[r])
  {
  }

  /**
   The round trip restores every reference, whatever the order, exactly if no reference is the digest of other
   content.
   */
  lemma RoundTripExact(m: RefMap)
    requires StoreRefs(m)
    ensures (forall refs :: SaveOrder(m, refs) ==> SameContent(m, Load(map[], Entries(m, refs)))) <==> Unambiguous(m)
  {
    if Unambiguous(m) {
      forall refs | SaveOrder(m, refs)
        ensures SameContent(m, Load(map[], Entries(m, refs)))
      {
        RoundTrip(m, refs);
      }
    } else {
      var r, q :| !UnambiguousAt(m, r, q);
      var refs := OrderStartingWith(m, r);
      DigestHasEntry(m, refs, q);
      Overwritten(m, refs, r);
      var l := Load(map[], Entries(m, refs));
      assert KeyOf(l[r]).digest != KeyOf(m[r]).digest;
    }
  }

  /**
   There are such references: after content B has been tagged "t", and then content A with the digest of B as its tag.
   Some order of the entries loses the tag.
   */
  lemma AmbiguousExists() returns (m: RefMap, refs: seq<string>)
    ensures StoreRefs(m) && !Unambiguous(m)
    ensures SaveOrder(m, refs) && !SameContent(m, Load(map[], Entries(m, refs)))
  {
    var a, b := Plain(Key(ImageManifest, "a", 1)), Plain(Key(ImageManifest, "b", 2));
    m := map["t" := b, "a" := a, "b" := a];
    assert !UnambiguousAt(m, "b", "t");
    RoundTripExact(m);
    refs :| SaveOrder(m, refs) && !SameContent(m, Load(map[], Entries(m, refs)));
  }

  // ----- what the operations of the store keep -----

  /** Tagging keeps both conditions, unless the reference is the digest of other content. */
  lemma TagKeeps(m: RefMap, d: Descriptor, ref: string)
    requires StoreRefs(m) && Unambiguous(m) && ref != "" && d.digest != ""
    requires forall q :: q in m && m[q].digest == d.digest ==> KeyOf(m[q]) == KeyOf(d)
    requires forall q :: q in m && m[q].digest == ref ==> d.digest == ref
    ensures StoreRefs(m[d.digest := d][ref := d]) && Unambiguous(m[d.digest := d][ref := d])
  {
    var m' := m[d.digest := d][ref := d];
    forall r
      ensures DigestKnown(m', r)
    {
      assert DigestKnown(m, r);
    }
    forall r, q
      ensures DigestIdentifies(m', r, q) && UnambiguousAt(m', r, q)
    {
      assert DigestIdentifies(m, r, q) && UnambiguousAt(m, r, q);
    }
  }

  lemma UntagKeeps(m: RefMap, ref: string)
    requires StoreRefs(m) && Unambiguous(m) && IsTagRef(m, ref)
    ensures StoreRefs(m - {ref}) && Unambiguous(m - {ref})
  {
    forall r
      ensures DigestKnown(m - {ref}, r)
    {
      assert DigestKnown(m, r) && UnambiguousAt(m, ref, r);
    }
    forall r, q
      ensures DigestIdentifies(m - {ref}, r, q) && UnambiguousAt(m - {ref}, r, q)
    {
      assert DigestIdentifies(m, r, q) && UnambiguousAt(m, r, q);
    }
  }
}
