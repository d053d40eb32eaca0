/** Bounded streaming verification of a stored blob, against the one-shot check of the same
    bytes. The digest is a parameter: any function of the bytes. */
module Blobs {
  import opened Options

  type Byte = bv8
  type Digest = nat
  type Sha = seq<Byte> -> Digest

  const BUFFER: nat := 8192

  datatype BlobError =
    | NotFound(hash: Digest)
    | HashMismatch(expected: Digest, actual: Digest)
    | ReadLimitExceeded(actualBytes: nat, limitBytes: nat)
    | SizeMismatch(expectedBytes: nat, actualSize: nat)
    | Io

  datatype Outcome = Ok | Err(error: BlobError)

  datatype MediaRef = MediaRef(hash: Digest, sizeBytes: nat)

  function CheckReadLimit(reference: MediaRef, limit: nat): Outcome {
    if reference.sizeBytes > limit then Err(ReadLimitExceeded(reference.sizeBytes, limit)) else Ok
  }

  /** The one-shot check of bytes already in memory. */
  function Verify(sha: Sha, reference: MediaRef, bytes: seq<Byte>, limit: nat): Outcome {
    if CheckReadLimit(reference, limit).Err? then CheckReadLimit(reference, limit)
    else if |bytes| > limit then Err(ReadLimitExceeded(|bytes|, limit))
    else if |bytes| != reference.sizeBytes then Err(SizeMismatch(reference.sizeBytes, |bytes|))
    else if sha(bytes) != reference.hash then Err(HashMismatch(reference.hash, sha(bytes)))
    else Ok
  }

  /** Every answer to content that can be read, with when it is given and what it carries. The
      reference is refused before its content is looked at, then length, size and digest. */
  ghost predicate Judged(r: Outcome, sha: Sha, reference: MediaRef, content: seq<Byte>, limit: nat) {
    var size, length := reference.sizeBytes, |content|;
    && (r == Ok <==> size <= limit && length == size && sha(content) == reference.hash)
    && (r == Err(ReadLimitExceeded(size, limit)) <==> size > limit)
    && (r == Err(ReadLimitExceeded(length, limit)) && length != size <==> size <= limit < length)
    && (r == Err(SizeMismatch(size, length)) <==> size <= limit && length <= limit && length != size)
    && (r == Err(HashMismatch(reference.hash, sha(content))) <==> size <= limit && length == size && sha(content) != reference.hash)
  }

  /** The one-shot check gives each answer exactly when it should. */
  lemma VerifyJudges(sha: Sha, reference: MediaRef, bytes: seq<Byte>, limit: nat)
    ensures Judged(Verify(sha, reference, bytes, limit), sha, reference, bytes, limit)
  {
  }

  // ---------------------------------------------------------------- the file as read

  datatype Opened = Missing | Unreadable | File(length: Option<nat>)

  /** What one read call returns; an empty chunk is the end of the file. */
  datatype ReadEvent = Chunk(bytes: seq<Byte>) | Interrupted | Failed

  function Min(a: nat, b: nat): nat {
    if a <= b then a else b
  }

  /** A chunk as the reader sees it: no larger than its buffer, nor than what is left of the
      size plus one sentinel byte. */
  function Seen(chunk: seq<Byte>, left: nat): (r: seq<Byte>)
    ensures |r| <= left && |r| <= BUFFER && r <= chunk
  {
    chunk[..Min(|chunk|, Min(BUFFER, left))]
  }

  /** Call `i` on a file that does not change, `pos` being the read position before each call:
      it does not fail, moves nothing if interrupted, and otherwise returns the bytes that
      follow, as many as it likes up to a buffer, none only at the end. */
  ghost predicate ReadsOn(events: nat -> ReadEvent, content: seq<Byte>, pos: nat -> nat, i: nat) {
    pos(i) <= |content| &&
    match events(i)
    case Failed => false
    case Interrupted => pos(i + 1) == pos(i)
    case Chunk(b) =>
      && |b| <= BUFFER && pos(i + 1) == pos(i) + |b| <= |content|
      && b == content[pos(i)..pos(i + 1)] && (b == [] ==> pos(i) == |content|)
  }

  /** The file did not change while it was read. */
  ghost predicate Unchanged(events: nat -> ReadEvent, content: seq<Byte>, pos: nat -> nat) {
    pos(0) == 0 && forall i :: ReadsOn(events, content, pos, i)
  }

  ghost predicate EventuallyCalm(events: nat -> ReadEvent, calm: nat) {
    forall i: nat :: i >= calm ==> !events(i).Interrupted?
  }

  /** Read, count and hash a blob chunk by chunk into `out`. Success means the output has the
      referenced size and digest, whatever the file did meanwhile; the output never exceeds
      the referenced size; and on a file that did not change since its length was taken the
      result is that of the one-shot check of its content. */
  method ReadVerifiedInto(sha: Sha, reference: MediaRef, limit: nat, file: Opened, events: nat -> ReadEvent,
                          ghost calm: nat, ghost content: seq<Byte>, ghost pos: nat -> nat)
    returns (r: Outcome, out: seq<Byte>)
    requires EventuallyCalm(events, calm)
    ensures |out| <= reference.sizeBytes
    ensures r.Ok? ==> |out| == reference.sizeBytes <= limit && sha(out) == reference.hash
    ensures reference.sizeBytes > limit ==> r == Err(ReadLimitExceeded(reference.sizeBytes, limit)) && out == []
    ensures r.Err? && r.error.NotFound? <==> file.Missing? && reference.sizeBytes <= limit
    ensures r.Err? && r.error.NotFound? ==> r.error.hash == reference.hash
    ensures reference.sizeBytes <= limit && (file.Unreadable? || file == File(None)) ==> r == Err(Io)
    ensures file == File(Some(|content|)) && Unchanged(events, content, pos) ==>
              && Judged(r, sha, reference, content, limit) && r == Verify(sha, reference, content, limit)
              && (r.Ok? ==> out == content)
    ensures r == Err(Io) && file.File? && file.length.Some? ==> exists i :: events(i).Failed?
  {
    out := [];
    r := CheckReadLimit(reference, limit);
    if r.Err? { return; }
    match file
    case Missing => return Err(NotFound(reference.hash)), [];
    case Unreadable => return Err(Io), [];
    case File(length) =>
      if length.None? { return Err(Io), []; }
      if length.value > limit { return Err(ReadLimitExceeded(length.value, limit)), []; }
      if length.value != reference.sizeBytes { return Err(SizeMismatch(reference.sizeBytes, length.value)), []; }
    var size := reference.sizeBytes;
    var received, i, done := 0, 0, false;
    while !done
      invariant |out| == received <= size
      invariant |content| == size && Unchanged(events, content, pos) ==>
                  received == pos(i) && out == content[..received] && (done ==> out == content)
      decreases if done then 0 else 1, size + 1 - received, if calm > i then calm - i else 0
    {
      assert Unchanged(events, content, pos) ==> ReadsOn(events, content, pos, i);
      var left := size + 1 - received;
      match events(i)
      case Interrupted =>
        i := i + 1;
      case Failed =>
        return Err(Io), out;
      case Chunk(b) =>
        var chunk := Seen(b, left);
        assert |content| == size && Unchanged(events, content, pos) ==> chunk == b;
        if chunk == [] {
          done := true;
        } else {
          received := received + |chunk|;
          if received > limit {
            return Err(ReadLimitExceeded(received, limit)), out;
          }
          if received > size {
            return Err(SizeMismatch(size, received)), out;
          }
          out := out + chunk;
          i := i + 1;
        }
    }
    if received != size { return Err(SizeMismatch(size, received)), out; }
    var actual := sha(out);
    if actual != reference.hash { return Err(HashMismatch(reference.hash, actual)), out; }
    r := Ok;
  }
}
