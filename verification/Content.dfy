/** Descriptors, the key that identifies content, and the edge relation of the content graph. */
module Content {

  datatype Option<+T> = None | Some(value: T)

  datatype Error =
    | NotFound | Unsupported | InvalidContent | AlreadyExists | InvalidSize | SizeExceedsLimit
    | UnexpectedEOF | TrailingData | Mismatch | Other

  datatype Result<+T> = Ok(value: T) | Err(error: Error)

  type Digest = string

  /** The media types the library distinguishes; all the others are opaque to it. */
  datatype MediaType =
    | DockerManifest
    | DockerManifestList
    | ImageManifest
    | ImageIndex
    | ArtifactManifest
    | NonDistributableLayer
    | NonDistributableLayerGzip
    | NonDistributableLayerZstd
    | DockerForeignLayer
    | OtherType(name: string)

  predicate IsManifest(m: MediaType) {
    m.DockerManifest? || m.DockerManifestList? || m.ImageManifest? || m.ImageIndex? || m.ArtifactManifest?
  }

  predicate IsForeignLayer(m: MediaType) {
    m.NonDistributableLayer? || m.NonDistributableLayerGzip? || m.NonDistributableLayerZstd? || m.DockerForeignLayer?
  }

  /** The comparable triple under which content is tracked, cached and indexed. */
  datatype Key = Key(mediaType: MediaType, digest: Digest, size: int)

  /** An OCI descriptor. An absent annotation map and an empty one are the same value here. */
  datatype Descriptor = Descriptor(mediaType: MediaType, digest: Digest, size: int,
                                   artifactType: string, annotations: map<string, string>)

  function KeyOf(d: Descriptor): Key {
    Key(d.mediaType, d.digest, d.size)
  }

  /** The descriptor that carries only the key. */
  function Plain(k: Key): Descriptor {
    Descriptor(k.mediaType, k.digest, k.size, "", map[])
  }

  /** The key of the zero descriptor. */
  const EMPTY_KEY := Key(OtherType(""), "", 0)

  /** What a blob decodes to when it is read as a manifest; `Opaque` is content that does not decode. */
  datatype Blob =
    | Opaque
    | Json(subject: Option<Descriptor>, config: Descriptor, layers: seq<Descriptor>,
           manifests: seq<Descriptor>, blobs: seq<Descriptor>)

  function SubjectList(b: Blob): seq<Descriptor>
    requires b.Json?
  {
    if b.subject.Some? then [b.subject.value] else []
  }

  /** The nodes a blob of media type `m` points to directly. */
  function Children(m: MediaType, b: Blob): Result<seq<Descriptor>> {
    if !IsManifest(m) then Ok([])
    else if b.Opaque? then Err(InvalidContent)
    else
      match m
      case DockerManifest => Ok([b.config] + b.layers)
      case ImageManifest => Ok(SubjectList(b) + [b.config] + b.layers)
      case DockerManifestList => Ok(b.manifests)
      case ImageIndex => Ok(SubjectList(b) + b.manifests)
      case _ => Ok(SubjectList(b) + b.blobs)
  }

  /** A manifest of media type `m` names `d`: as its subject, its config, a layer, an entry or a blob. */
  predicate Names(m: MediaType, b: Blob, d: Descriptor) {
    b.Json? &&
    (|| ((m == ImageManifest || m == ImageIndex || m == ArtifactManifest) && b.subject == Some(d))
     || ((m == ImageManifest || m == DockerManifest) && (d == b.config || d in b.layers))
     || ((m == ImageIndex || m == DockerManifestList) && d in b.manifests)
     || (m == ArtifactManifest && d in b.blobs))
  }

  /** The children are what a manifest names. Only manifests are decoded, so nothing else can fail to decode. */
  lemma ChildrenAreNamed(m: MediaType, b: Blob, d: Descriptor)
    ensures Children(m, b).Err? <==>
      && b.Opaque?
      && (m == DockerManifest || m == DockerManifestList || m == ImageManifest || m == ImageIndex
          || m == ArtifactManifest)
    ensures Children(m, b).Ok? ==> (d in Children(m, b).value <==> Names(m, b, d))
  {
    if b.Json? {
      assert d in SubjectList(b) <==> b.subject == Some(d);
    }
  }

  /** A content-addressed store. */
  type Storage = map<Key, Blob>

  /** Only manifests are fetched; any other node has no successors, stored or not. */
  function Successors(src: Storage, n: Key): Result<seq<Descriptor>> {
    if !IsManifest(n.mediaType) then Ok([])
    else if n !in src then Err(NotFound)
    else Children(n.mediaType, src[n])
  }

  function Keys(ds: seq<Descriptor>): (ks: seq<Key>)
    ensures |ks| == |ds|
    ensures forall i :: 0 <= i < |ds| ==> ks[i] == KeyOf(ds[i])
  {
    seq(|ds|, i requires 0 <= i < |ds| => KeyOf(ds[i]))
  }

  function SetOf<T>(s: seq<T>): set<T> {
    set x | x in s
  }

  lemma KeysConcat(a: seq<Descriptor>, b: seq<Descriptor>)
    ensures Keys(a + b) == Keys(a) + Keys(b)
  {
  }

  lemma KeysTake(ds: seq<Descriptor>)
    requires |ds| > 0
    ensures Keys(ds) == [KeyOf(ds[0])] + Keys(ds[1..])
  {
  }

  /** Compaction in place: of the first `i` entries of `b`, those to keep are the first `j` of `a`. */
  ghost predicate Packed<T>(a: seq<T>, b: seq<T>, i: nat, j: nat, kept: seq<T>) {
    |a| == |b| && j <= i <= |a| && a[..j] == kept && a[i..] == b[i..]
  }

  lemma PackStep<T>(a: seq<T>, b: seq<T>, i: nat, j: nat, kept: seq<T>, drop: bool, a': seq<T>, j': nat)
    requires Packed(a, b, i, j, kept) && i < |a|
    requires if drop then a' == a && j' == j else j' == j + 1 && a' == a[j := a[i]]
    ensures a[i] == b[i] == b[..i + 1][i] && b[..i + 1][..i] == b[..i]
    ensures Packed(a', b, i + 1, j', if drop then kept else kept + [b[i]])
  {
    assert a[i] == a[i..][0] == b[i];
    assert a'[i + 1..] == a[i..][1..] == b[i..][1..];
    if !drop {
      assert a'[..j'] == a[..j] + [a[i]];
    }
  }

  predicate NoRepeats<T(==)>(s: seq<T>) {
    forall i, j :: 0 <= i < j < |s| ==> s[i] != s[j]
  }

  /** A list without repetitions has as many entries as members, and one with repetitions has more. */
  lemma {:induction false} DistinctCount<T>(s: seq<T>)
    ensures |SetOf(s)| <= |s|
    ensures NoRepeats(s) <==> |SetOf(s)| == |s|
  {
    if s != [] {
      DistinctCount(s[1..]);
      assert SetOf(s) == {s[0]} + SetOf(s[1..]);
      assert NoRepeats(s) <==> NoRepeats(s[1..]) && s[0] !in s[1..];
    }
  }

  lemma {:induction false} CountOnce<T>(s: seq<T>, x: T)
    requires NoRepeats(s)
    ensures multiset(s)[x] == if x in s then 1 else 0
  {
    if s != [] {
      assert s == [s[0]] + s[1..];
      CountOnce(s[1..], x);
    }
  }

  /** No member occurs twice exactly if each is counted once. */
  lemma RepeatCounted<T>(s: seq<T>) returns (x: T)
    requires !NoRepeats(s)
    ensures multiset(s)[x] >= 2
  {
    var i, j :| 0 <= i < j < |s| && s[i] == s[j];
    x := s[i];
    assert s == s[..j] + [s[j]] + s[j + 1..];
    assert s[i] in s[..j];
  }
}
