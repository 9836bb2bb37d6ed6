/** The in-memory resolver: references to descriptors, and per digest the references given to it. */
module Resolver {
  import opened Content

  function TagsOf(tags: map<Digest, set<string>>, d: Digest): set<string> {
    if d in tags then tags[d] else {}
  }

  /** The tag set of `d` once `reference` has been untagged. */
  function TagsWithout(index: map<string, Descriptor>, tags: map<Digest, set<string>>, reference: string,
                       d: Digest): set<string>
  {
    if reference in index && index[reference].digest == d then TagsOf(tags, d) - {reference} else TagsOf(tags, d)
  }

  /** Every live reference is in the tag set of the digest it resolves to; stale ones may be there as well. */
  ghost predicate Covered(index: map<string, Descriptor>, tags: map<Digest, set<string>>) {
    forall ref :: ref in index ==> ref in TagsOf(tags, index[ref].digest)
  }

  /** A tag set counts as a tag when it holds more than the digest itself. */
  predicate TagSetIsTag(tagSet: set<string>, d: Digest) {
    if d in tagSet then |tagSet| > 1 else |tagSet| > 0
  }

  lemma TagSetMeaning(tagSet: set<string>, d: Digest)
    ensures TagSetIsTag(tagSet, d) <==> exists t :: t in tagSet && t != d
  {
    var others := tagSet - {d};
    if d in tagSet {
      assert tagSet == others + {d};
    } else {
      assert tagSet == others;
    }
    if others != {} {
      var t :| t in others;
    }
  }

  class Memory {
    var index: map<string, Descriptor>
    var tags: map<Digest, set<string>>

    ghost predicate Valid()
      reads this
    {
      Covered(index, tags) && forall d :: d in tags ==> tags[d] != {}
    }

    constructor ()
      ensures Valid() && index == map[] && tags == map[]
    {
      index, tags := map[], map[];
    }

    method Resolve(reference: string) returns (r: Result<Descriptor>)
      ensures r.Ok? <==> reference in index
      ensures r == if reference in index then Ok(index[reference]) else Err(NotFound)
    {
      if reference !in index {
        return Err(NotFound);
      }
      return Ok(index[reference]);
    }

    method Tag(desc: Descriptor, reference: string)
      requires Valid()
      modifies this
      ensures Valid()
      ensures index == old(index)[reference := desc]
      ensures tags == old(tags)[desc.digest := TagsOf(old(tags), desc.digest) + {reference}]
    {
      index := index[reference := desc];
      tags := tags[desc.digest := TagsOf(tags, desc.digest) + {reference}];
    }

    /** Removes a reference; the tag sets of other digests are left alone. */
    method Untag(reference: string)
      requires Valid()
      modifies this
      ensures Valid()
      ensures index == old(index) - {reference}
      ensures forall d :: TagsOf(tags, d) == TagsWithout(old(index), old(tags), reference, d)
    {
      if reference !in index {
        return;
      }
      var d := index[reference].digest;
      index := index - {reference};
      var tagSet := TagsOf(tags, d) - {reference};
      if tagSet == {} {
        tags := tags - {d};
      } else {
        tags := tags[d := tagSet];
      }
    }

    /** Whether the content has a tag besides its digest; a stale entry counts as one. */
    method IsTagged(desc: Descriptor) returns (tagged: bool)
      requires Valid()
      ensures tagged == TagSetIsTag(TagsOf(tags, desc.digest), desc.digest)
      ensures !tagged ==> forall ref :: ref in index && index[ref].digest == desc.digest ==> ref == desc.digest
    {
      var tagSet := TagsOf(tags, desc.digest);
      TagSetMeaning(tagSet, desc.digest);
      if desc.digest in tagSet {
        tagged := |tagSet| > 1;
      } else {
        tagged := |tagSet| > 0;
      }
    }
  }
}
