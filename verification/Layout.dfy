/** Blob files of an OCI layout, and how manifests are read from them. */
module Layout {
  import opened Content

  /** A blob file: its size and what it decodes to. */
  datatype File = File(size: int, blob: Blob)

  type Files = map<Digest, File>

  /** Reading a blob as `FetchAll` does: by digest, checked against the size of the descriptor. */
  function Fetch(files: Files, k: Key): Result<Blob> {
    if k.digest !in files then Err(NotFound)
    else if files[k.digest].size != k.size then Err(Mismatch)
    else Ok(files[k.digest].blob)
  }

  function FetchJson(files: Files, k: Key): Result<Blob> {
    match Fetch(files, k)
    case Err(e) => Err(e)
    case Ok(b) => if b.Opaque? then Err(InvalidContent) else Ok(b)
  }

  /** The media types that can carry a subject. */
  predicate HasSubjectField(m: MediaType) {
    m.ImageManifest? || m.ImageIndex? || m.ArtifactManifest?
  }

  /** `manifestutil.Subject`: content of the other media types is not read. */
  function Subject(files: Files, k: Key): Result<Option<Key>> {
    if !HasSubjectField(k.mediaType) then Ok(None)
    else
      match FetchJson(files, k)
      case Err(e) => Err(e)
      case Ok(b) => Ok(if b.subject.Some? then Some(KeyOf(b.subject.value)) else None)
  }

  /** `content.Successors` on the layout. */
  function ReadSuccessors(files: Files, k: Key): Result<seq<Descriptor>> {
    if !IsManifest(k.mediaType) then Ok([])
    else
      match Fetch(files, k)
      case Err(e) => Err(e)
      case Ok(b) => Children(k.mediaType, b)
  }

  /** The subject of a manifest is one of its successors. */
  lemma SubjectIsSuccessor(files: Files, k: Key)
    requires Subject(files, k).Ok? && Subject(files, k).value.Some?
    ensures ReadSuccessors(files, k).Ok?
    ensures Subject(files, k).value.value in SetOf(Keys(ReadSuccessors(files, k).value))
  {
    var ds := ReadSuccessors(files, k).value;
    assert Keys(ds)[0] == Subject(files, k).value.value;
  }

  /** What the layout stores under a key: a file of its digest and size. */
  predicate Holds(files: Files, k: Key) {
    k.digest in files && files[k.digest].size == k.size
  }

  /** The media types of manifests that can refer to another one. */
  predicate CanRefer(m: MediaType) {
    m == ImageManifest || m == ImageIndex || m == ArtifactManifest
  }

  /** `k` is stored, and its manifest names `m` as its subject. */
  predicate NamesSubject(files: Files, k: Key, m: Key) {
    && CanRefer(k.mediaType) && Holds(files, k) && files[k.digest].blob.Json?
    && files[k.digest].blob.subject.Some? && KeyOf(files[k.digest].blob.subject.value) == m
  }

  /** The subject of a key is what its stored manifest names; there is none to be read of the other media types. */
  lemma SubjectIsNamed(files: Files, k: Key, m: Key)
    ensures Subject(files, k) == Ok(Some(m)) <==> NamesSubject(files, k, m)
    ensures Subject(files, k).Err? <==> CanRefer(k.mediaType) && !(Holds(files, k) && files[k.digest].blob.Json?)
  {
  }

  /** The successors of a key are what its stored manifest names; reading them fails only for a manifest. */
  lemma SuccessorsAreNamed(files: Files, k: Key, d: Descriptor)
    ensures ReadSuccessors(files, k).Err? <==>
      && (k.mediaType == DockerManifest || k.mediaType == DockerManifestList || k.mediaType == ImageManifest
          || k.mediaType == ImageIndex || k.mediaType == ArtifactManifest)
      && !(Holds(files, k) && files[k.digest].blob.Json?)
    ensures ReadSuccessors(files, k) == Err(NotFound) ==> k.digest !in files
    ensures ReadSuccessors(files, k).Err? && k.digest !in files ==> ReadSuccessors(files, k) == Err(NotFound)
    ensures ReadSuccessors(files, k).Ok? ==>
      (d in ReadSuccessors(files, k).value <==> Holds(files, k) && Names(k.mediaType, files[k.digest].blob, d))
  {
    if Holds(files, k) {
      ChildrenAreNamed(k.mediaType, files[k.digest].blob, d);
    }
  }
}
