/**
 A file's way down: a reader gets the hashes of a version as a plan, fetches each chunk from any
 replica that passes the hash check, and joins them. Replicas may return anything at all.
 */
module Download {
  import opened Entities
  import opened Sha256Spec
  import opened Transfer

  // ---------------------------------------------------------------- the plan

  /** One entry of a download plan; targets are the replicas to try, in order. */
  datatype Entry = Entry(sequence: nat, hash: string, targets: seq<string>)

  /** The entries list each chunk of the version once, in any order. */
  ghost predicate PlanFor(plan: seq<Entry>, hashes: seq<string>) {
    && |plan| == |hashes|
    && (forall i :: 0 <= i < |plan| ==> plan[i].sequence < |hashes| && plan[i].hash == hashes[plan[i].sequence])
    && (forall i, j :: 0 <= i < j < |plan| ==> plan[i].sequence != plan[j].sequence)
  }

  /** [...chunks].sort((a, b) => a.sequence - b.sequence), by insertion. */
  function Sort(plan: seq<Entry>): seq<Entry> {
    if plan == [] then [] else Insert(Sort(plan[..|plan| - 1]), plan[|plan| - 1])
  }

  function Insert(plan: seq<Entry>, e: Entry): seq<Entry> {
    if plan == [] || plan[|plan| - 1].sequence <= e.sequence then plan + [e]
    else Insert(plan[..|plan| - 1], e) + [plan[|plan| - 1]]
  }

  predicate Ascending(plan: seq<Entry>) {
    forall i, j :: 0 <= i < j < |plan| ==> plan[i].sequence < plan[j].sequence
  }

  lemma {:induction false} InsertMembers(plan: seq<Entry>, e: Entry)
    ensures |Insert(plan, e)| == |plan| + 1
    ensures forall x :: x in Insert(plan, e) <==> x in plan || x == e
  {
    if plan != [] && plan[|plan| - 1].sequence > e.sequence {
      InsertMembers(plan[..|plan| - 1], e);
      assert plan == plan[..|plan| - 1] + [plan[|plan| - 1]];
    }
  }

  lemma {:induction false} InsertAscends(plan: seq<Entry>, e: Entry)
    requires Ascending(plan) && forall x :: x in plan ==> x.sequence != e.sequence
    ensures Ascending(Insert(plan, e))
  {
    if plan != [] && plan[|plan| - 1].sequence > e.sequence {
      var front, last := plan[..|plan| - 1], plan[|plan| - 1];
      assert plan == front + [last];
      InsertAscends(front, e);
      InsertMembers(front, e);
      var r := Insert(front, e);
      forall i | 0 <= i < |r| ensures r[i].sequence < last.sequence {
        assert r[i] in r;
      }
    }
  }

  lemma {:induction false} SortAscends(plan: seq<Entry>)
    requires forall i, j :: 0 <= i < j < |plan| ==> plan[i].sequence != plan[j].sequence
    ensures Ascending(Sort(plan)) && |Sort(plan)| == |plan|
    ensures forall x :: x in Sort(plan) <==> x in plan
  {
    if plan != [] {
      var front, last := plan[..|plan| - 1], plan[|plan| - 1];
      assert plan == front + [last];
      SortAscends(front);
      InsertMembers(Sort(front), last);
      InsertAscends(Sort(front), last);
    }
  }

  /** n ascending numbers below n are 0, 1, ..., n-1. */
  lemma {:induction false} AscendingFills(plan: seq<Entry>, i: nat, top: nat)
    requires Ascending(plan) && i < |plan| && forall k :: 0 <= k < |plan| ==> plan[k].sequence < top
    ensures i <= plan[i].sequence <= top - (|plan| - i)
  {
    AtLeast(plan, i);
    AtMost(plan, i, top);
  }

  lemma {:induction false} AtLeast(plan: seq<Entry>, i: nat)
    requires Ascending(plan) && i < |plan|
    ensures i <= plan[i].sequence
  {
    if i > 0 { AtLeast(plan, i - 1); }
  }

  lemma {:induction false} AtMost(plan: seq<Entry>, i: nat, top: nat)
    requires Ascending(plan) && i < |plan| && plan[|plan| - 1].sequence < top
    ensures plan[i].sequence <= top - (|plan| - i)
    decreases |plan| - i
  {
    if i + 1 < |plan| { AtMost(plan, i + 1, top); }
  }

  /** Sorting a plan, in whatever order it arrived, gives the version's chunks in file order. */
  lemma {:induction false} SortRestoresOrder(plan: seq<Entry>, hashes: seq<string>, i: nat)
    requires PlanFor(plan, hashes) && i < |hashes|
    ensures |Sort(plan)| == |hashes| && Sort(plan)[i].sequence == i && Sort(plan)[i].hash == hashes[i] &&
      Sort(plan)[i] in plan
  {
    SortAscends(plan);
    var sorted := Sort(plan);
    forall k | 0 <= k < |sorted|
      ensures sorted[k] in plan && sorted[k].sequence < |hashes| && sorted[k].hash == hashes[sorted[k].sequence]
    {
      assert sorted[k] in sorted;
    }
    AscendingFills(sorted, i, |hashes|);
  }

  // ---------------------------------------------------------------- reading

  /** The hash function, and what each fetch returns, by sequence number and place among the targets:
      nothing usable, or some bytes. */
  datatype Fetch = Fetch(digest: Digest, reply: (nat, nat) -> Option<seq<byte>>)

  predicate Passes(f: Fetch, e: Entry, k: nat) {
    f.reply(e.sequence, k).Some? && f.digest(f.reply(e.sequence, k).value) == e.hash
  }

  /** The first reply that passes the check, from a place on. */
  function Verified(f: Fetch, e: Entry, from: nat): (r: Option<seq<byte>>)
    ensures r.Some? <==> exists k: nat :: from <= k < |e.targets| && Passes(f, e, k)
    ensures r.Some? ==> exists k: nat :: from <= k < |e.targets| && Passes(f, e, k) && f.reply(e.sequence, k) == r
    decreases |e.targets| - from
  {
    if from >= |e.targets| then None
    else if Passes(f, e, from) then f.reply(e.sequence, from)
    else Verified(f, e, from + 1)
  }

  /** fetchVerifiedChunk, and the inner loop of assembleFromPlan. */
  method FetchVerified(f: Fetch, e: Entry) returns (r: Option<seq<byte>>)
    ensures r == Verified(f, e, 0)
    ensures r.Some? ==> f.digest(r.value) == e.hash
    ensures r.Some? ==> exists k: nat :: k < |e.targets| && f.reply(e.sequence, k) == r && AllFail(f, e, k)
    ensures r.None? ==> AllFail(f, e, |e.targets|)
  {
    for k := 0 to |e.targets|
      invariant Verified(f, e, 0) == Verified(f, e, k) && AllFail(f, e, k)
    {
      var reply := f.reply(e.sequence, k);
      if reply.Some? && f.digest(reply.value) == e.hash { return reply; }
    }
    return None;
  }

  /** None of the first k replies has the hash. */
  ghost predicate AllFail(f: Fetch, e: Entry, k: nat) {
    forall j: nat :: j < k && f.reply(e.sequence, j).Some? ==> f.digest(f.reply(e.sequence, j).value) != e.hash
  }

  /** The verified parts of the entries, joined, if each has one. */
  function Assembled(f: Fetch, entries: seq<Entry>): Option<seq<byte>> {
    if entries == [] then Some([])
    else
      var before := Assembled(f, entries[..|entries| - 1]);
      var part := Verified(f, entries[|entries| - 1], 0);
      if before.None? || part.None? then None else Some(before.value + part.value)
  }

  method AssembleFromPlan(f: Fetch, plan: seq<Entry>) returns (r: Option<seq<byte>>)
    ensures r == Assembled(f, Sort(plan))
  {
    hide Sort, Verified, Assembled;
    var parts: seq<byte> := [];
    var sorted := Sort(plan);
    NothingAssembled(f, sorted);
    for i := 0 to |sorted|
      invariant Assembled(f, sorted[..i]) == Some(parts)
    {
      var verified := FetchVerified(f, sorted[i]);
      OneMore(f, sorted, i);
      if verified.None? {
        NotAssembled(f, sorted, i + 1);
        return None;
      }
      parts := parts + verified.value;
    }
    assert sorted[..|sorted|] == sorted;
    return Some(parts);
  }

  lemma {:induction false} NotAssembled(f: Fetch, entries: seq<Entry>, n: nat)
    requires n <= |entries| && Assembled(f, entries[..n]).None?
    ensures Assembled(f, entries).None?
    decreases |entries| - n
  {
    if n < |entries| {
      assert entries[..n + 1][..n] == entries[..n];
      NotAssembled(f, entries, n + 1);
    } else {
      assert entries[..n] == entries;
    }
  }

  lemma {:induction false} NothingAssembled(f: Fetch, entries: seq<Entry>)
    ensures Assembled(f, entries[..0]) == Some([])
  {
  }

  lemma {:induction false} OneMore(f: Fetch, entries: seq<Entry>, i: nat)
    requires i < |entries|
    ensures var before, part := Assembled(f, entries[..i]), Verified(f, entries[i], 0);
      Assembled(f, entries[..i + 1]) ==
        if before.None? || part.None? then None else Some(before.value + part.value)
  {
    hide Verified;
    assert entries[..i + 1][..i] == entries[..i];
  }

  /** The version's rows, as CreateWithVersion numbered them, each with the replicas its lookup found. */
  function Located(hashes: seq<string>, locations: nat -> seq<string>): (entries: seq<Entry>)
    ensures PlanFor(entries, hashes) && forall i :: 0 <= i < |hashes| ==> entries[i].sequence == i
  {
    seq(|hashes|, i requires 0 <= i < |hashes| => Entry(i, hashes[i], locations(i)))
  }

  /** reassemble: the version's rows in sequence order, each read from its recorded locations. */
  method Reassemble(f: Fetch, hashes: seq<string>, locations: nat -> seq<string>) returns (r: Option<seq<byte>>)
    ensures r == Assembled(f, Located(hashes, locations))
  {
    hide Verified, Assembled;
    ghost var entries := Located(hashes, locations);
    var buf: seq<byte> := [];
    NothingAssembled(f, entries);
    for i := 0 to |hashes|
      invariant Assembled(f, entries[..i]) == Some(buf)
    {
      OneMore(f, entries, i);
      var nodes := locations(i);
      if |nodes| == 0 {
        NoTargets(f, entries[i]);
        NotAssembled(f, entries, i + 1);
        return None;
      }
      var data := FetchVerified(f, Entry(i, hashes[i], nodes));
      if data.None? {
        NotAssembled(f, entries, i + 1);
        return None;
      }
      buf := buf + data.value;
    }
    assert entries[..|hashes|] == entries;
    return Some(buf);
  }

  lemma {:induction false} NoTargets(f: Fetch, e: Entry)
    requires e.targets == []
    ensures Verified(f, e, 0).None?
  {
  }

  // ---------------------------------------------------------------- the round trip

  /** The fetch returned other bytes with the same hash as the slice of the file. */
  ghost predicate Forged(f: Fetch, i: nat, k: nat, slice: seq<byte>) {
    f.reply(i, k).Some? && f.reply(i, k).value != slice && f.digest(f.reply(i, k).value) == f.digest(slice)
  }

  /** Some fetch for one of the first n slices did. */
  ghost predicate Collision(f: Fetch, file: seq<byte>, n: nat) {
    exists i: nat, k: nat :: i < n && i * CHUNK_SIZE <= |file| && Forged(f, i, k, Slice(file, i))
  }

  /** The entries are the chunks of the cut, in order. */
  ghost predicate InOrder(chunks: seq<Chunk>, entries: seq<Entry>) {
    |entries| == |chunks| && forall i :: 0 <= i < |chunks| ==> IsEntryFor(entries[i], i, chunks[i])
  }

  predicate IsEntryFor(e: Entry, i: nat, c: Chunk) { e.sequence == i && e.hash == c.hash }

  /** A chunk that verifies is the slice it stands for, or a collision. */
  lemma {:induction false} PartIsSlice(f: Fetch, file: seq<byte>, n: nat, e: Entry)
    requires e.sequence < n && e.sequence * CHUNK_SIZE <= |file| && !Collision(f, file, n)
    requires e.hash == f.digest(Slice(file, e.sequence)) && Verified(f, e, 0).Some?
    ensures Verified(f, e, 0).value == Slice(file, e.sequence)
  {
    var r := Verified(f, e, 0);
    var k: nat :| k < |e.targets| && Passes(f, e, k) && f.reply(e.sequence, k) == r;
    assert !Forged(f, e.sequence, k, Slice(file, e.sequence));
  }

  lemma {:induction false} PartsAreSlices(f: Fetch, file: seq<byte>, chunks: seq<Chunk>, entries: seq<Entry>, n: nat)
    requires CutSoFar(f.digest, file, chunks) && InOrder(chunks, entries) && n <= |chunks|
    requires !Collision(f, file, |chunks|) && Assembled(f, entries[..n]).Some?
    ensures n == 0 || (n - 1) * CHUNK_SIZE <= |file|
    ensures Assembled(f, entries[..n]).value == Joined(file, n)
  {
    hide Verified, Collision;
    if n > 0 {
      OneMore(f, entries, n - 1);
      assert IsChunk(f.digest, file, n - 1, chunks[n - 1]) && IsEntryFor(entries[n - 1], n - 1, chunks[n - 1]);
      PartsAreSlices(f, file, chunks, entries, n - 1);
      PartIsSlice(f, file, |chunks|, entries[n - 1]);
    }
  }

  lemma {:induction false} InOrderGivesFile(f: Fetch, file: seq<byte>, chunks: seq<Chunk>, entries: seq<Entry>)
    requires CutOf(f.digest, file, chunks) && InOrder(chunks, entries) && Assembled(f, entries).Some?
    ensures Assembled(f, entries).value == file || Collision(f, file, |chunks|)
  {
    hide Verified, Collision, Assembled;
    if !Collision(f, file, |chunks|) {
      assert entries[..|chunks|] == entries;
      PartsAreSlices(f, file, chunks, entries, |chunks|);
      JoinedIsPrefix(file, |chunks|);
      assert IsChunk(f.digest, file, |chunks| - 1, chunks[|chunks| - 1]);
      assert file[..|file|] == file;
    }
  }

  lemma {:induction false} SortedInOrder(chunks: seq<Chunk>, plan: seq<Entry>)
    requires PlanFor(plan, Hashes(chunks))
    ensures InOrder(chunks, Sort(plan))
  {
    SortAscends(plan);
    forall i | 0 <= i < |chunks| ensures IsEntryFor(Sort(plan)[i], i, chunks[i]) {
      SortRestoresOrder(plan, Hashes(chunks), i);
    }
  }

  /** Round trip, browser to browser: whatever the replicas return, each time they are asked, and in
      whatever order the plan arrives, an assembly that succeeds gives back exactly the file that was
      cut, the empty one included; the only way out is a hash collision shown by a fetch's own bytes. */
  lemma {:induction false} DownloadIsTheFile(f: Fetch, file: seq<byte>, chunks: seq<Chunk>, plan: seq<Entry>)
    requires CutOf(f.digest, file, chunks) && PlanFor(plan, Hashes(chunks)) && Assembled(f, Sort(plan)).Some?
    ensures Assembled(f, Sort(plan)).value == file || Collision(f, file, |chunks|)
  {
    hide CutOf, Assembled, Collision, InOrder;
    SortedInOrder(chunks, plan);
    InOrderGivesFile(f, file, chunks, Sort(plan));
  }

  /** And browser to worker. */
  lemma {:induction false} ReassembledIsTheFile(f: Fetch, file: seq<byte>, chunks: seq<Chunk>,
                                                locations: nat -> seq<string>)
    requires CutOf(f.digest, file, chunks) && Assembled(f, Located(Hashes(chunks), locations)).Some?
    ensures Assembled(f, Located(Hashes(chunks), locations)).value == file || Collision(f, file, |chunks|)
  {
    hide CutOf, Assembled, Collision;
    InOrderGivesFile(f, file, chunks, Located(Hashes(chunks), locations));
  }

  /** An assembly succeeds exactly when every entry has a replica that passes. */
  lemma {:induction false} AssembledIff(f: Fetch, entries: seq<Entry>)
    ensures Assembled(f, entries).Some? <==> forall i :: 0 <= i < |entries| ==> Verified(f, entries[i], 0).Some?
  {
    hide Verified;
    if entries != [] {
      var front := entries[..|entries| - 1];
      AssembledIff(f, front);
      assert forall i :: 0 <= i < |front| ==> front[i] == entries[i];
    }
  }

  /** So one honest replica per chunk is enough for a download. */
  lemma {:induction false} OneHonestReplicaSuffices(f: Fetch, file: seq<byte>, chunks: seq<Chunk>, plan: seq<Entry>)
    requires CutOf(f.digest, file, chunks) && PlanFor(plan, Hashes(chunks))
    requires forall i :: 0 <= i < |plan| ==> HasHonest(f, file, plan[i])
    ensures Assembled(f, Sort(plan)).Some?
  {
    hide Assembled, CutOf, Verified;
    SortAscends(plan);
    forall i | 0 <= i < |Sort(plan)| ensures Verified(f, Sort(plan)[i], 0).Some? {
      HonestPasses(f, file, chunks, plan, i);
    }
    AssembledIff(f, Sort(plan));
  }

  lemma {:induction false} HonestPasses(f: Fetch, file: seq<byte>, chunks: seq<Chunk>, plan: seq<Entry>, i: nat)
    requires CutOf(f.digest, file, chunks) && PlanFor(plan, Hashes(chunks)) && i < |plan|
    requires forall i :: 0 <= i < |plan| ==> HasHonest(f, file, plan[i])
    ensures |Sort(plan)| == |plan| && Verified(f, Sort(plan)[i], 0).Some?
  {
    hide CutOf;
    SortRestoresOrder(plan, Hashes(chunks), i);
    ChunkHash(f.digest, file, chunks, i);
    var e := Sort(plan)[i];
    var k :| 0 <= k < |plan| && plan[k] == e;
    assert HasHonest(f, file, plan[k]);
    var t: nat :| t < |e.targets| && Honest(f, file, e.sequence, t);
    assert Passes(f, e, t);
  }

  lemma {:induction false} ChunkHash(digest: Digest, file: seq<byte>, chunks: seq<Chunk>, i: nat)
    requires CutOf(digest, file, chunks) && i < |chunks|
    ensures i * CHUNK_SIZE <= |file| && chunks[i].hash == digest(Slice(file, i))
  {
    assert IsChunk(digest, file, i, chunks[i]);
  }

  ghost predicate HasHonest(f: Fetch, file: seq<byte>, e: Entry) {
    exists t: nat :: t < |e.targets| && Honest(f, file, e.sequence, t)
  }

  /** The fetch returns the slice. */
  ghost predicate Honest(f: Fetch, file: seq<byte>, i: nat, t: nat) {
    i * CHUNK_SIZE <= |file| && f.reply(i, t) == Some(Slice(file, i))
  }
}
