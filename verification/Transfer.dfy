/**
 A file's way up: the client cuts it into slices, hashes each one and the whole, uploads what the
 server lacks and completes with the list of hashes. Nothing but the hashing loop depends on what
 the hash function is.
 */
module Transfer {
  import opened Entities
  import opened Sha256Spec
  import opened Sha256Stream

  /** The hash of some bytes, in hexadecimal; SHA-256 where it matters. */
  type Digest = seq<byte> -> string

  const CHUNK_SIZE := 8 * 1024 * 1024

  datatype Chunk = Chunk(hash: string, start: nat, end: nat)

  function Min(x: nat, y: nat): nat { if x <= y then x else y }

  function Hashes(chunks: seq<Chunk>): (hashes: seq<string>)
    ensures |hashes| == |chunks| && forall i :: 0 <= i < |chunks| ==> hashes[i] == chunks[i].hash
  {
    seq(|chunks|, i requires 0 <= i < |chunks| => chunks[i].hash)
  }

  /** The i-th slice of a file. */
  function Slice(file: seq<byte>, i: nat): seq<byte>
    requires i * CHUNK_SIZE <= |file|
  {
    file[i * CHUNK_SIZE..Min((i + 1) * CHUNK_SIZE, |file|)]
  }

  /** Consecutive slices of at most CHUNK_SIZE bytes, each under its hash. */
  ghost predicate CutSoFar(digest: Digest, file: seq<byte>, chunks: seq<Chunk>) {
    forall i :: 0 <= i < |chunks| ==> IsChunk(digest, file, i, chunks[i])
  }

  ghost predicate IsChunk(digest: Digest, file: seq<byte>, i: nat, c: Chunk) {
    && c.start == i * CHUNK_SIZE <= |file| && c.end == Min((i + 1) * CHUNK_SIZE, |file|)
    && c.hash == digest(Slice(file, i))
  }

  /** The whole cut: it ends with the file, and only the one chunk of an empty file is empty. */
  ghost predicate CutOf(digest: Digest, file: seq<byte>, chunks: seq<Chunk>) {
    && CutSoFar(digest, file, chunks) && |chunks| > 0 && chunks[|chunks| - 1].end == |file|
    && (|chunks| > 1 ==> chunks[|chunks| - 1].start < |file|)
  }

  /** The slices joined. */
  function Joined(file: seq<byte>, n: nat): seq<byte>
    requires n == 0 || (n - 1) * CHUNK_SIZE <= |file|
  {
    if n == 0 then [] else Joined(file, n - 1) + Slice(file, n - 1)
  }

  lemma {:induction false} JoinedIsPrefix(file: seq<byte>, n: nat)
    requires n == 0 || (n - 1) * CHUNK_SIZE <= |file|
    ensures Joined(file, n) == file[..Min(n * CHUNK_SIZE, |file|)]
  {
    if n > 0 { JoinedIsPrefix(file, n - 1); }
  }

  /** The hashing loop of uploadFile: one slice in memory at a time, the whole hash streamed. */
  method HashFile(file: seq<byte>) returns (chunks: seq<Chunk>, whole: string)
    ensures CutOf(Sha256(), file, chunks) && whole == HexDigest(file)
  {
    hide HexDigest, Sha256Spec.Digest, Blocks, Compress, CutSoFar, Slice;
    chunks := [];
    NothingCut(file);
    var hasher := new Sha256Stream();
    var start := 0;
    while start < |file|
      invariant hasher.Valid() && fresh(hasher) && fresh(hasher.h) && fresh(hasher.w) && fresh(hasher.pending)
      invariant start == |chunks| * CHUNK_SIZE && hasher.fed == file[..Min(start, |file|)]
      invariant CutSoFar(Sha256(), file, chunks)
      invariant chunks != [] ==> chunks[|chunks| - 1].start < |file| && chunks[|chunks| - 1].end == Min(start, |file|)
    {
      var end := Min(start + CHUNK_SIZE, |file|);
      var buf := file[start..end];
      hasher.Update(buf);
      assert file[..start] + buf == file[..end];
      CutExtends(file, chunks, start, end);
      chunks := chunks + [Chunk(HexDigest(buf), start, end)];
      start := start + CHUNK_SIZE;
    }
    assert file[..|file|] == file;
    whole := hasher.DigestHex();
    if |chunks| == 0 { // zero-byte file
      CutExtends(file, [], 0, 0);
      assert file[0..0] == file && [] + [Chunk(whole, 0, 0)] == [Chunk(whole, 0, 0)];
      chunks := [Chunk(whole, 0, 0)];
    }
  }

  lemma {:induction false} NothingCut(file: seq<byte>)
    ensures CutSoFar(Sha256(), file, [])
  {
  }

  lemma {:induction false} CutExtends(file: seq<byte>, chunks: seq<Chunk>, start: nat, end: nat)
    requires CutSoFar(Sha256(), file, chunks) && start == |chunks| * CHUNK_SIZE <= |file| &&
      end == Min(start + CHUNK_SIZE, |file|)
    ensures CutSoFar(Sha256(), file, chunks + [Chunk(HexDigest(file[start..end]), start, end)])
  {
    hide HexDigest;
    assert (|chunks| + 1) * CHUNK_SIZE == start + CHUNK_SIZE;
  }

  /** SubtleCrypto's one-shot digest, printed in hexadecimal. */
  function Sha256(): Digest { HexDigest }

  // ---------------------------------------------------------------- uploading what is missing

  datatype AttemptState = Presigned | Committed

  /** The server's upload_chunks rows of one upload. */
  class Session {
    var attempts: map<string, AttemptState>

    /** The upsert leaves a committed attempt alone. */
    method InitChunk(hash: string)
      modifies this
      ensures attempts == old(attempts)[hash := if IsCommitted(old(attempts), hash) then Committed else Presigned]
    {
      if !(hash in attempts && attempts[hash] == Committed) { attempts := attempts[hash := Presigned]; }
    }

    /** Rejected unless the attempt is presigned and the etags are acceptable. */
    method CommitChunk(hash: string, acceptable: bool) returns (ok: bool)
      modifies this
      ensures ok <==> acceptable && hash in old(attempts) && old(attempts)[hash] == Presigned
      ensures attempts == if ok then old(attempts)[hash := Committed] else old(attempts)
    {
      ok := acceptable && hash in attempts && attempts[hash] == Presigned;
      if ok { attempts := attempts[hash := Committed]; }
    }

    /** The upload loop. It gets through exactly when no missing hash was committed before or occurs
        twice, every PUT for one succeeds and the server accepts its etags; then every byte of the file
        is accounted for and exactly the missing hashes are newly committed. */
    method UploadMissing(ghost digest: Digest, ghost file: seq<byte>, chunks: seq<Chunk>, missing: set<string>,
                         net: Network)
      returns (ok: bool, uploadedBytes: nat)
      requires CutOf(digest, file, chunks)
      modifies this
      ensures ok <==>
        AllCommittable(old(attempts), Hashes(chunks), missing, |chunks|) &&
        AllDelivered(net, Hashes(chunks), missing, |chunks|)
      ensures ok ==> uploadedBytes == |file|
      ensures ok ==> forall h :: IsCommitted(attempts, h) <==>
        IsCommitted(old(attempts), h) || (h in missing && h in Hashes(chunks))
    {
      hide Hashes, CutOf;
      ghost var hashes := Hashes(chunks);
      uploadedBytes := 0;
      for i := 0 to |chunks|
        invariant AllCommittable(old(attempts), hashes, missing, i) && AllDelivered(net, hashes, missing, i)
        invariant CommittedSoFar(old(attempts), attempts, hashes, missing, i)
        invariant uploadedBytes == if i == 0 then 0 else chunks[i - 1].end
      {
        hide AllCommittable, AllDelivered, CommittedSoFar, Delivered;
        var chunk := chunks[i];
        ChunkFollows(digest, file, chunks, i);
        NextCommittable(old(attempts), attempts, hashes, missing, i);
        NextDelivered(net, hashes, missing, i);
        if chunk.hash in missing {
          InitChunk(chunk.hash);
          var etags := PutAll(net, chunk.hash);
          if etags.None? { return false, uploadedBytes; }
          var committed := CommitChunk(chunk.hash, net.accepts(etags.value));
          if !committed { return false, uploadedBytes; }
        }
        uploadedBytes := uploadedBytes + (chunk.end - chunk.start);
      }
      WholeCut(digest, file, chunks);
      assert hashes[..|chunks|] == hashes;
      ok := true;
    }
  }

  /** The targets presigned for a chunk, what each answers to the PUT (an etag, or a failure), and
      whether the server accepts the etags of a commit. */
  datatype Network = Network(targets: string -> seq<string>, answer: (string, string) -> Option<string>,
                             accepts: map<string, string> -> bool)

  function EtagsOf(net: Network, hash: string): map<string, string> {
    map t | t in net.targets(hash) && net.answer(hash, t).Some? :: net.answer(hash, t).value
  }

  /** Every PUT of the chunk succeeds, and its etags are accepted. */
  predicate Delivered(net: Network, hash: string) {
    (forall t :: t in net.targets(hash) ==> net.answer(hash, t).Some?) && net.accepts(EtagsOf(net, hash))
  }

  ghost predicate AllDelivered(net: Network, hashes: seq<string>, missing: set<string>, n: nat)
    requires n <= |hashes|
  {
    forall i :: 0 <= i < n && hashes[i] in missing ==> Delivered(net, hashes[i])
  }

  lemma NextDelivered(net: Network, hashes: seq<string>, missing: set<string>, i: nat)
    requires i < |hashes| && AllDelivered(net, hashes, missing, i)
    ensures AllDelivered(net, hashes, missing, i + 1) <==> (hashes[i] in missing ==> Delivered(net, hashes[i]))
    ensures AllDelivered(net, hashes, missing, |hashes|) ==> AllDelivered(net, hashes, missing, i + 1)
  {
  }

  /** One PUT per target; the first that fails ends the upload. */
  method PutAll(net: Network, hash: string) returns (etags: Option<map<string, string>>)
    ensures etags.Some? <==> forall t :: t in net.targets(hash) ==> net.answer(hash, t).Some?
    ensures etags.Some? ==> etags.value == EtagsOf(net, hash) && (Delivered(net, hash) <==> net.accepts(etags.value))
    ensures etags.None? ==> !Delivered(net, hash)
  {
    var targets := net.targets(hash);
    var sent: map<string, string> := map[];
    for i := 0 to |targets|
      invariant forall t :: t in targets[..i] ==> net.answer(hash, t).Some?
      invariant sent == map t | t in targets[..i] && net.answer(hash, t).Some? :: net.answer(hash, t).value
    {
      assert targets[i] in targets;
      var res := net.answer(hash, targets[i]);
      if res.None? { return None; }
      assert targets[..i + 1] == targets[..i] + [targets[i]];
      sent := sent[targets[i] := res.value];
    }
    assert targets[..|targets|] == targets;
    return Some(sent);
  }

  predicate IsCommitted(attempts: map<string, AttemptState>, h: string) { h in attempts && attempts[h] == Committed }

  /** Of the first n hashes, each missing one is uncommitted at the start and does not repeat. */
  ghost predicate AllCommittable(attempts: map<string, AttemptState>, hashes: seq<string>, missing: set<string>, n: nat)
    requires n <= |hashes|
  {
    forall i :: 0 <= i < n && hashes[i] in missing ==> !IsCommitted(attempts, hashes[i]) && hashes[i] !in hashes[..i]
  }

  ghost predicate CommittedSoFar(before: map<string, AttemptState>, attempts: map<string, AttemptState>,
                                 hashes: seq<string>, missing: set<string>, n: nat)
    requires n <= |hashes|
  {
    forall h :: IsCommitted(attempts, h) <==> IsCommitted(before, h) || (h in missing && h in hashes[..n])
  }

  /** The next chunk can be committed exactly when its attempt is not committed by now; if it can, or
      is not missing, the loop's invariants go on. */
  lemma {:induction false} NextCommittable(before: map<string, AttemptState>, attempts: map<string, AttemptState>,
                        hashes: seq<string>, missing: set<string>, i: nat)
    requires i < |hashes| && AllCommittable(before, hashes, missing, i) &&
      CommittedSoFar(before, attempts, hashes, missing, i)
    ensures AllCommittable(before, hashes, missing, i + 1) <==>
      (hashes[i] in missing ==> !IsCommitted(attempts, hashes[i]))
    ensures AllCommittable(before, hashes, missing, |hashes|) ==> AllCommittable(before, hashes, missing, i + 1)
    ensures var attempts' := if hashes[i] in missing then attempts[hashes[i] := Committed] else attempts;
      CommittedSoFar(before, attempts', hashes, missing, i + 1)
  {
    assert hashes[..i + 1] == hashes[..i] + [hashes[i]];
  }

  /** The smallest file that fails: one full block twice, with the block missing on the server. */
  lemma {:induction false} RepeatedBlockFails(digest: Digest, b: seq<byte>, chunks: seq<Chunk>, missing: set<string>)
    requires |b| == CHUNK_SIZE && CutOf(digest, b + b, chunks) && missing == {chunks[0].hash}
    ensures |chunks| == 2 && chunks[0].hash == chunks[1].hash == digest(b)
    ensures !AllCommittable(map[], Hashes(chunks), missing, |chunks|)
  {
    var file, last := b + b, |chunks| - 1;
    assert IsChunk(digest, file, last, chunks[last]);
    assert last == 1;
    assert IsChunk(digest, file, 0, chunks[0]);
    assert Slice(file, 0) == b && Slice(file, 1) == b;
    var hashes := Hashes(chunks);
    assert hashes[1] in missing && hashes[..1][0] == hashes[1];
  }

  lemma {:induction false} ChunkFollows(digest: Digest, file: seq<byte>, chunks: seq<Chunk>, i: nat)
    requires CutOf(digest, file, chunks) && i < |chunks|
    ensures chunks[i].start == (if i == 0 then 0 else chunks[i - 1].end) <= chunks[i].end
  {
    hide Slice;
    assert IsChunk(digest, file, i, chunks[i]);
    if i > 0 { assert IsChunk(digest, file, i - 1, chunks[i - 1]); }
  }

  lemma {:induction false} WholeCut(digest: Digest, file: seq<byte>, chunks: seq<Chunk>)
    requires CutOf(digest, file, chunks)
    ensures |chunks| > 0 && chunks[|chunks| - 1].end == |file|
  {
  }
}
