/** Reading content against its descriptor, and the stores that rely on it. */
module VerifiedRead {
  import opened Content

  newtype byte = x: int | 0 <= x < 256

  /**
   One call of a reader: it delivers at most `max` bytes, an eager one says EOF along with the last ones, or it fails.
   */
  datatype Chunk = Deliver(max: nat, eager: bool) | Fail

  predicate NoFail(plan: seq<Chunk>) {
    Fail !in plan
  }

  datatype Status = More | Eof | Failed

  function Prefix(data: seq<byte>, n: int): seq<byte> {
    if n <= 0 then [] else if n < |data| then data[..n] else data
  }

  function Less(limit: Option<int>, k: nat): Option<int> {
    if limit.Some? then Some(limit.value - k) else None
  }

  function Visible(data: seq<byte>, limit: Option<int>): seq<byte> {
    if limit.Some? then Prefix(data, limit.value) else data
  }

  lemma VisibleAfter(data: seq<byte>, limit: Option<int>, k: nat)
    requires k <= |data| && (limit.Some? ==> k <= limit.value)
    ensures data == data[..k] + data[k..]
    ensures Visible(data, limit) == data[..k] + Visible(data[k..], Less(limit, k))
    ensures k == |data| ==> Visible(data[k..], Less(limit, k)) == []
  {
  }

  lemma Regroup(a: seq<byte>, b: seq<byte>, c: seq<byte>)
    ensures a + (b + c) == (a + b) + c
  {
  }

  /**
   A finite stream with a plan for the next calls; once the plan is used up it delivers all that is asked for. A
   limited one ends after `limit` more bytes, without another call.
   */
  class Stream {
    var data: seq<byte>
    var plan: seq<Chunk>
    var limit: Option<int>

    /** What can still be read. */
    ghost function Rest(): seq<byte>
      reads this
    {
      Visible(data, limit)
    }

    constructor (data: seq<byte>, plan: seq<Chunk>)
      ensures this.data == data && this.plan == plan && limit.None?
    {
      this.data, this.plan, limit := data, plan, None;
    }

    method Read(n: nat) returns (chunk: seq<byte>, status: Status)
      requires n > 0
      modifies this
      ensures |chunk| <= n && old(data) == chunk + data && old(Rest()) == chunk + Rest()
      ensures status.Eof? ==> Rest() == []
      ensures status.More? ==> |Rest()| + |plan| < old(|Rest()| + |plan|)
      ensures old(NoFail(plan)) ==> NoFail(plan) && !status.Failed?
    {
      if limit.Some? && limit.value <= 0 {
        return [], Eof;
      }
      var most := if limit.Some? && limit.value < n then limit.value else n;
      var next := if plan == [] then Deliver(most, false) else plan[0];
      plan := if plan == [] then [] else plan[1..];
      if next.Fail? {
        return [], Failed;
      }
      var k := if next.max < most then next.max else most;
      k := if k < |data| then k else |data|;
      chunk := data[..k];
      status := if k == |data| && (next.eager || (data == [] && next.max > 0)) then Eof else More;
      VisibleAfter(data, limit, k);
      data, limit := data[k..], Less(limit, k);
    }
  }

  /** `after` is what is left of `before` when at most `most` bytes have been read. */
  predicate ReadSome(before: seq<byte>, after: seq<byte>, most: nat) {
    |after| <= |before| <= |after| + most && after == before[|before| - |after|..]
  }

  lemma ReadFront(before: seq<byte>, seen: seq<byte>, after: seq<byte>, most: nat)
    requires before == seen + after && |seen| <= most
    ensures ReadSome(before, after, most)
  {
  }

  /** The content is what the descriptor says. */
  predicate Matches(hash: seq<byte> -> Digest, content: seq<byte>, k: Key) {
    |content| == k.size && hash(content) == k.digest
  }

  /** A limit below zero stops a reader as one of zero does. */
  function Length(k: Key): nat {
    if k.size < 0 then 0 else k.size
  }

  /** What a reader accepts: it `Matches`, unless the size is negative; then only empty content is accepted. */
  predicate Accepts(hash: seq<byte> -> Digest, content: seq<byte>, k: Key) {
    |content| == Length(k) && hash(content) == k.digest
  }

  class VerifyReader {
    const stream: Stream
    const hash: seq<byte> -> Digest
    const target: Key
    var left: int
    var seen: seq<byte>
    var verified: bool
    var err: Option<Error>
    var eof: bool
    ghost var all: seq<byte>
    ghost var source: seq<byte>

    ghost predicate Valid()
      reads this, stream
    {
      && all == seen + stream.Rest() && source == seen + stream.data
      && (verified ==> eof && err.None? && stream.Rest() == [] && Accepts(hash, all, target))
      && (err.None? ==> left == target.size - |seen| && (left >= 0 || seen == []))
      && (eof ==> err.None? && left <= 0)
    }

    constructor (stream: Stream, hash: seq<byte> -> Digest, target: Key)
      ensures Valid() && this.stream == stream && this.hash == hash && this.target == target
      ensures all == stream.Rest() && source == stream.data && seen == [] && !verified && err.None? && !eof
    {
      this.stream, this.hash, this.target := stream, hash, target;
      left, seen, verified, err, eof := target.size, [], false, None, false;
      all, source := stream.Rest(), stream.data;
    }

    /** Reads through the limit and the tee: what is delivered has been hashed. An EOF before the end is unexpected. */
    method Read(n: nat) returns (chunk: seq<byte>, status: Status)
      requires Valid() && n > 0
      modifies this, stream
      ensures Valid() && all == old(all) && source == old(source) && verified == old(verified)
      ensures |chunk| <= n && seen == old(seen) + chunk
      ensures old(err.None?) && !old(eof) && old(left) > 0 && status.More? ==>
        |stream.Rest()| + |stream.plan| < old(|stream.Rest()| + |stream.plan|)
      ensures old(err.Some?) ==> err == old(err) && chunk == []
      ensures (status.Failed? <==> err.Some?) && (status.Eof? <==> eof)
      ensures old(NoFail(stream.plan)) ==> NoFail(stream.plan)
      ensures old(err.None?) && old(NoFail(stream.plan)) && err.Some? ==>
        err == Some(UnexpectedEOF) && |all| < target.size
    {
      if err.Some? {
        return [], Failed;
      }
      if eof || left <= 0 {
        eof := true;
        return [], Eof;
      }
      ghost var before := seen;
      chunk, status := stream.Read(if n < left then n else left);
      Regroup(before, chunk, stream.Rest());
      Regroup(before, chunk, stream.data);
      left, seen := left - |chunk|, seen + chunk;
      if status.Eof? && left > 0 {
        err := Some(UnexpectedEOF);
        status := Failed;
      } else if status.Eof? {
        eof := true;
      } else if status.Failed? {
        err := Some(Other);
      }
    }

    /** `ensureEOF`: looks for one more byte, which goes through the tee like any other. */
    method EnsureEOF() returns (ok: bool)
      requires Valid() && !verified && err.None? && left <= 0
      modifies this`seen, stream
      ensures all == seen + stream.Rest() && source == seen + stream.data
      ensures ok ==> seen == old(seen) && stream.Rest() == []
      ensures !ok && old(NoFail(stream.plan)) ==> |all| > Length(target)
      ensures old(NoFail(stream.plan)) ==> NoFail(stream.plan)
    {
      while true
        invariant all == seen + stream.Rest() && source == seen + stream.data && seen == old(seen)
        invariant old(NoFail(stream.plan)) ==> NoFail(stream.plan)
        decreases |stream.Rest()| + |stream.plan|
      {
        var peek, status := stream.Read(1);
        Regroup(seen, peek, stream.Rest());
        Regroup(seen, peek, stream.data);
        seen := seen + peek;
        if |peek| == 1 || status.Failed? {
          return false;
        } else if status.Eof? {
          return true;
        }
      }
    }

    /**
     Succeeds if and only if all content has been read, nothing is left and the digest is right. A failure is final,
     except for the one that says that it is too early.
     */
    method Verify() returns (e: Option<Error>, early: bool)
      requires Valid()
      modifies this, stream
      ensures Valid() && all == old(all) && source == old(source)
      ensures verified <==> e.None? && !early
      ensures verified ==> Accepts(hash, all, target)
      ensures early ==> e.None? && unchanged(this) && unchanged(stream) && left > 0
      ensures old(verified) ==> unchanged(this) && unchanged(stream)
      ensures old(err.Some?) ==> e == old(err) && unchanged(this) && unchanged(stream)
      ensures e.Some? ==> err == e
      ensures old(NoFail(stream.plan)) && old(err.None?) && !early ==> (verified <==> Accepts(hash, all, target))
      ensures old(NoFail(stream.plan)) && old(err.None?) && e.Some? ==>
        e == Some(if |all| > Length(target) then TrailingData else Mismatch)
    {
      if verified {
        return None, false;
      }
      if err.Some? {
        return err, false;
      }
      if !eof && left > 0 {
        return None, true;
      }
      ghost var nofail := NoFail(stream.plan);
      var ended := EnsureEOF();
      if !ended {
        eof, err := false, Some(TrailingData);
        return err, false;
      }
      assert all == seen;
      if hash(seen) != target.digest {
        eof, err := false, Some(Mismatch);
        return err, false;
      }
      verified, eof := true, true;
      return None, false;
    }
  }

  /** `io.ReadFull` into the whole buffer. */
  method ReadFull(reader: VerifyReader, buf: array<byte>) returns (e: Option<Error>)
    requires reader.Valid() && reader.seen == [] && reader.err.None? && !reader.eof && !reader.verified
    requires buf.Length == Length(reader.target)
    modifies reader, reader.stream, buf
    ensures reader.Valid() && reader.all == old(reader.all) && reader.source == old(reader.source) && !reader.verified
    ensures e.None? ==> reader.err.None? && buf[..] == reader.seen && reader.left <= 0
    ensures e.Some? ==> e == reader.err
    ensures old(NoFail(reader.stream.plan)) ==> NoFail(reader.stream.plan)
    ensures old(NoFail(reader.stream.plan)) && e.Some? ==> e == Some(UnexpectedEOF) && |reader.all| < reader.target.size
  {
    var n := 0;
    while n < buf.Length
      invariant reader.Valid() && reader.all == old(reader.all) && reader.source == old(reader.source)
      invariant !reader.verified && reader.err.None?
      invariant n == |reader.seen| <= buf.Length && buf[..n] == reader.seen && (reader.eof ==> n == buf.Length)
      invariant old(NoFail(reader.stream.plan)) ==> NoFail(reader.stream.plan)
      decreases |reader.stream.Rest()| + |reader.stream.plan|
    {
      var chunk, status := reader.Read(buf.Length - n);
      forall j | 0 <= j < |chunk| {
        buf[n + j] := chunk[j];
      }
      n := n + |chunk|;
      if status.Failed? {
        return reader.err;
      } else if status.Eof? {
        break;
      }
    }
    return None;
  }

  /** Reads content that must match its descriptor; how the stream is cut into chunks makes no difference. */
  method ReadAll(stream: Stream, hash: seq<byte> -> Digest, target: Key) returns (r: Result<seq<byte>>)
    modifies stream
    ensures r.Ok? ==>
      r.value == old(stream.Rest()) && Matches(hash, r.value, target) && old(stream.data) == r.value + stream.data
    ensures ReadSome(old(stream.data), stream.data, |old(stream.Rest())|)
    ensures target.size < 0 ==> r == Err(InvalidSize) && unchanged(stream)
    ensures target.size >= 0 && old(NoFail(stream.plan)) ==> r == ReadResult(hash, old(stream.Rest()), target)
  {
    if target.size < 0 {
      return Err(InvalidSize);
    }
    var buf := new byte[target.size];
    var reader := new VerifyReader(stream, hash, target);
    ghost var data, rest := stream.data, stream.Rest();
    var e := ReadFull(reader, buf);
    ReadFront(data, reader.seen, stream.data, |rest|);
    if e.Some? {
      return Err(e.value);
    }
    var early;
    e, early := reader.Verify();
    ReadFront(data, reader.seen, stream.data, |rest|);
    if e.Some? {
      return Err(e.value);
    }
    return Ok(buf[..]);
  }

  /** The outcome of reading the whole of `data` in terms of the data alone. */
  function ReadResult(hash: seq<byte> -> Digest, data: seq<byte>, target: Key): Result<seq<byte>> {
    if |data| < target.size then Err(UnexpectedEOF)
    else if |data| > target.size then Err(TrailingData)
    else if hash(data) != target.digest then Err(Mismatch)
    else Ok(data)
  }

  /** The in-memory content-addressed store. Content only gets in through `ReadAll`, so it always matches its key. */
  class Cas {
    const hash: seq<byte> -> Digest
    var content: map<Key, seq<byte>>

    ghost predicate Valid()
      reads this
    {
      forall k :: k in content ==> Matches(hash, content[k], k)
    }

    constructor (hash: seq<byte> -> Digest)
      ensures Valid() && content == map[] && this.hash == hash
    {
      this.hash, content := hash, map[];
    }

    /** Content that is there already is not read again; nothing is ever overwritten. */
    method Push(expected: Key, stream: Stream) returns (e: Option<Error>)
      requires Valid()
      modifies this, stream
      ensures Valid()
      ensures old(expected in content) ==> e == Some(AlreadyExists) && unchanged(stream)
      ensures e.None? ==> content == old(content)[expected := old(stream.Rest())] && expected !in old(content)
      ensures e.None? ==> old(stream.data) == old(stream.Rest()) + stream.data
      ensures ReadSome(old(stream.data), stream.data, |old(stream.Rest())|)
      ensures e.Some? ==> content == old(content)
      ensures old(NoFail(stream.plan)) && expected !in old(content) ==>
        (e.None? <==> Matches(hash, old(stream.Rest()), expected))
    {
      if expected in content {
        return Some(AlreadyExists);
      }
      var value := ReadAll(stream, hash, expected);
      if value.Err? {
        return Some(value.error);
      }
      content := content[expected := value.value];
      return None;
    }

    method Fetch(target: Key) returns (r: Result<seq<byte>>)
      requires Valid()
      ensures r.Ok? <==> target in content
      ensures r.Ok? ==> r.value == content[target] && Matches(hash, r.value, target)
    {
      if target !in content {
        return Err(NotFound);
      }
      return Ok(content[target]);
    }
  }

  /**
   Push with a size limit, over an in-memory store. The stream is cut at the size of the descriptor before it is
   read, so trailing data does not make the push fail: it stays in the stream.
   */
  method LimitedPush(cas: Cas, limit: int, expected: Key, stream: Stream) returns (e: Option<Error>)
    requires cas.Valid() && stream.limit.None?
    modifies cas, stream
    ensures cas.Valid() && stream.limit.None?
    ensures e.None? ==> cas.content == old(cas.content)[expected := Prefix(old(stream.data), expected.size)]
    ensures e.None? ==> old(stream.data) == cas.content[expected] + stream.data
    ensures ReadSome(old(stream.data), stream.data, Length(expected))
    ensures e.Some? ==> cas.content == old(cas.content)
    ensures expected.size > limit ==> e == Some(SizeExceedsLimit) && unchanged(stream)
    ensures expected.size <= limit && expected in old(cas.content) ==>
      e == Some(AlreadyExists) && stream.data == old(stream.data) && stream.plan == old(stream.plan)
    ensures old(forall k :: k in cas.content ==> k.size <= limit) ==> forall k :: k in cas.content ==> k.size <= limit
    ensures old(NoFail(stream.plan)) && expected !in old(cas.content) ==>
      (e.None? <==> expected.size <= limit && Matches(cas.hash, Prefix(old(stream.data), expected.size), expected))
  {
    if expected.size > limit {
      return Some(SizeExceedsLimit);
    }
    stream.limit := Some(expected.size);
    e := cas.Push(expected, stream);
    stream.limit := None;
  }
}
