/**
 The upload service and the sweeper as they run: methods that walk rows, nodes and hashes one by
 one and change the tables statement by statement. Each is proved to take exactly the step of
 ChunkState, so that what ChunkSafety proves of runs holds of them.
 */
module ChunkServices {
  import opened Entities
  import opened ChunkState

  datatype CommitResult =
    | Ok | UploadNotInProgress | ChunkNotFound | InvalidState | ChunkTooLarge | ChecksumMismatch | InsufficientReplicas

  /** The etag loop of CommitChunk: every etag is compared with the first one met. */
  method VerifyEtags(etags: map<NodeId, string>) returns (agree: bool)
    ensures agree <==> EtagsAgree(etags)
  {
    var first := "";
    ghost var met: set<NodeId> := {};
    var todo := etags.Keys;
    while todo != {}
      invariant todo <= etags.Keys && met <= etags.Keys - todo
      invariant first != "" ==> met != {}
      invariant forall n :: n in etags.Keys - todo ==> etags[n] == first && first != ""
      invariant first == "" ==> todo == etags.Keys
    {
      var n :| n in todo;
      todo := todo - {n};
      if etags[n] == "" { return false; }
      if first == "" {
        first := etags[n];
        met := {n};
      } else if etags[n] != first {
        ghost var m :| m in met;
        assert etags[m] != etags[n];
        return false;
      }
    }
    return true;
  }

  /** The hashes of the list that (org, u) cannot claim, in order and with repetitions. */
  function Missing(s: State, org: OrgId, u: UploadId, hashes: seq<Hash>): seq<Hash> {
    if hashes == [] then []
    else Missing(s, org, u, hashes[..|hashes| - 1]) +
         if PresentFor(s, org, u, hashes[|hashes| - 1]) then [] else [hashes[|hashes| - 1]]
  }

  lemma {:induction false} MissingMembers(s: State, org: OrgId, u: UploadId, hashes: seq<Hash>, h: Hash)
    ensures h in Missing(s, org, u, hashes) <==>
      && h in hashes
      && !(u in s.uploads && h in s.uploads[u].attempts && s.uploads[u].attempts[h].state == Committed)
      && !(h in s.chunks && s.chunks[h].gc == Live && (org, h) in s.proofs)
  {
    if hashes != [] {
      var front, last := hashes[..|hashes| - 1], hashes[|hashes| - 1];
      MissingMembers(s, org, u, front, h);
      assert hashes == front + [last];
    }
  }

  /** The report keeps the order asked for. */
  lemma {:induction false} MissingInOrder(s: State, org: OrgId, u: UploadId, a: seq<Hash>, b: seq<Hash>)
    ensures Missing(s, org, u, a + b) == Missing(s, org, u, a) + Missing(s, org, u, b)
    ensures |Missing(s, org, u, b)| <= |b|
  {
    if b == [] {
      assert a + b == a;
    } else {
      MissingInOrder(s, org, u, a, b[..|b| - 1]);
      assert (a + b)[..|a + b| - 1] == a + b[..|b| - 1];
    }
  }

  class Store {
    const cfg: Config
    var now: int
    var chunks: map<Hash, Chunk>
    var objects: map<Hash, set<NodeId>>
    var uploads: map<UploadId, Upload>
    var issued: set<UploadId>
    var proofs: set<(OrgId, Hash)>
    var versions: map<VersionId, seq<Hash>>
    var completions: map<CallId, Completion>
    var sweep: Sweep
    var down: set<NodeId>

    function Snapshot(): State
      reads this
    {
      State(now, chunks, objects, uploads, issued, proofs, versions, completions, sweep, down)
    }

    constructor (cfg: Config)
      ensures this.cfg == cfg && Snapshot() == Empty
    {
      this.cfg := cfg;
      now, chunks, objects, uploads, issued := 0, map[], map[], map[], {};
      proofs, versions, completions, sweep, down := {}, map[], map[], Idle, {};
    }

    /** The checks of Service.CommitChunk, in its order. */
    method Admit(u: UploadId, seen: UploadStatus, h: Hash, size: int, etags: map<NodeId, string>)
      returns (r: CommitResult)
      ensures r == Ok <==> CommitAccepted(cfg, Snapshot(), u, seen, h, size, etags)
      ensures r == UploadNotInProgress <==> seen == Completed
      ensures r == ChunkNotFound ==> u !in uploads || h !in uploads[u].attempts
      ensures r !in {UploadNotInProgress, ChunkNotFound} ==> u in uploads && h in uploads[u].attempts
      ensures r == InvalidState ==> uploads[u].attempts[h].state == Committed
      ensures r == ChunkTooLarge ==> size > cfg.chunkSize > 0
      ensures r == InsufficientReplicas ==> 0 < |etags| < cfg.writeQuorum
      ensures r == ChecksumMismatch && |etags| != 0 ==>
        exists m, n :: m in etags && n in etags && (etags[m] == "" || etags[m] != etags[n])
    {
      if seen != InProgress { return UploadNotInProgress; }
      if u !in uploads || h !in uploads[u].attempts { return ChunkNotFound; }
      if uploads[u].attempts[h].state != Presigned { return InvalidState; }
      if cfg.chunkSize > 0 && size > cfg.chunkSize { return ChunkTooLarge; }
      if |etags| == 0 { return ChecksumMismatch; }
      if cfg.writeQuorum > 0 && |etags| < cfg.writeQuorum { return InsufficientReplicas; }
      var agree := VerifyEtags(etags);
      if !agree { return ChecksumMismatch; }
      return Ok;
    }

    /** Service.CommitChunk, its statements taken together. */
    method CommitChunk(u: UploadId, seen: UploadStatus, h: Hash, size: int, etags: map<NodeId, string>)
      returns (r: CommitResult)
      requires Truthful(Snapshot(), u, h, etags)
      modifies this
      ensures Snapshot() == DoCommit(cfg, old(Snapshot()), u, seen, h, size, etags)
      ensures r == Ok <==> old(CommitAccepted(cfg, Snapshot(), u, seen, h, size, etags))
    {
      hide EtagsAgree, Truthful;
      r := Admit(u, seen, h, size, etags);
      if r != Ok { return; }
      ghost var s := Snapshot();
      uploads := WithAttempt(Snapshot(), u, h, uploads[u].attempts[h].(state := Committed)); // MarkChunkCommitted
      chunks := chunks[h := if h in chunks then chunks[h].(gc := Live, lastSeen := now)     // UpsertGlobalChunk
                            else Chunk(size, now, Live, map[])];
      UpsertLocations(h, etags.Keys);
      proofs := proofs + {(uploads[u].org, h)};                                              // RecordOrgChunkProof
      assert chunks[h] == Committing(s, h, size, etags.Keys);
      assert chunks == s.chunks[h := Committing(s, h, size, etags.Keys)];
    }

    /** UpsertChunkLocation for each node that reported an etag. */
    method UpsertLocations(h: Hash, nodes: set<NodeId>)
      requires h in chunks
      modifies this`chunks
      ensures chunks == old(chunks)[h := old(chunks[h]).(locations := old(chunks[h]).locations +
        map n | n in nodes :: LocationCommitted)]
    {
      ghost var base := chunks;
      var todo := nodes;
      while todo != {}
        invariant todo <= nodes && h in chunks
        invariant chunks[h].locations == base[h].locations + map n | n in nodes - todo :: LocationCommitted
        invariant chunks == base[h := base[h].(locations := chunks[h].locations)]
      {
        var n :| n in todo;
        ghost var before := chunks[h].locations;
        todo := todo - {n};
        chunks := chunks[h := chunks[h].(locations := chunks[h].locations[n := LocationCommitted])];
        assert chunks[h].locations == before[n := LocationCommitted];
      }
      assert nodes - todo == nodes;
    }

    /** The first query of FindMissingChunksForOrg: the hashes this upload has not committed. */
    method Candidates(u: UploadId, hashes: seq<Hash>) returns (candidates: seq<Hash>)
      ensures candidates == Uncommitted(Snapshot(), u, hashes)
    {
      candidates := [];
      for i := 0 to |hashes|
        invariant candidates == Uncommitted(Snapshot(), u, hashes[..i])
      {
        assert hashes[..i + 1][..i] == hashes[..i];
        if !CommittedIn(Snapshot(), u, hashes[i]) { candidates := candidates + [hashes[i]]; }
      }
      assert hashes[..|hashes|] == hashes;
    }

    /** Repository.FindMissingChunksForOrg: candidates, the touched and proven ones among them, and
        what is left. The answer is about the state before the touch. */
    method FindMissing(u: UploadId, org: OrgId, hashes: seq<Hash>) returns (missing: seq<Hash>)
      modifies this`chunks
      ensures Snapshot() == old(Snapshot()).(chunks := Touch(old(Snapshot()), u, hashes))
      ensures missing == Missing(old(Snapshot()), org, u, hashes)
    {
      hide Missing, Uncommitted, PresentFor, Touch;
      ghost var s := Snapshot();
      var candidates := Candidates(u, hashes);
      UncommittedMembers(s, u, hashes);
      var proven := set h | h in candidates && h in chunks && chunks[h].gc == Live && (org, h) in proofs;
      ProvenArePresent(s, org, u, candidates, proven);
      chunks := map h | h in chunks ::
        if h in candidates && chunks[h].gc == Live then chunks[h].(lastSeen := now) else chunks[h];
      TouchesCandidates(s, u, hashes, candidates);
      missing := Subtract(candidates, proven, s, org, u);
      MissingOfUncommitted(s, org, u, hashes);
    }

    static method Subtract(candidates: seq<Hash>, proven: set<Hash>, ghost s: State, ghost org: OrgId,
                           ghost u: UploadId) returns (missing: seq<Hash>)
      requires forall h :: h in candidates ==> (h in proven <==> PresentFor(s, org, u, h))
      ensures missing == Missing(s, org, u, candidates)
    {
      missing := [];
      for i := 0 to |candidates|
        invariant missing == Missing(s, org, u, candidates[..i])
      {
        assert candidates[..i + 1][..i] == candidates[..i];
        assert candidates[i] in candidates;
        if candidates[i] !in proven { missing := missing + [candidates[i]]; }
      }
      assert candidates[..|candidates|] == candidates;
    }

    /** Sweeper.reapChunk: re-verify, remove the object from every recorded location, then delete
        the row. `flaky` are nodes whose removal fails although they are up, and `dbOk` whether
        the final DELETE and the commit succeed. */
    method ReapChunk(h: Hash, flaky: set<NodeId>, dbOk: bool) returns (removed: set<NodeId>, ok: bool)
      requires sweep.Sweeping? && h in sweep.candidates
      modifies this`chunks, this`objects, this`sweep
      ensures Snapshot() == DoReap(old(Snapshot()), h, removed, ok)
      ensures sweep == Sweeping(old(sweep.candidates) - {h})
      ensures ok <==> dbOk && old(Reapable(Snapshot(), h)) && old(chunks[h].locations.Keys) !! down + flaky
      ensures removed !! down + flaky
    {
      removed, ok := {}, false;
      var reapable := Reapable(Snapshot(), h);
      sweep := Sweeping(sweep.candidates - {h});
      if !reapable { return; }
      var nodes := chunks[h].locations.Keys;
      var all;
      removed, all := RemoveObjects(h, nodes, flaky);
      assert removed * nodes - down == removed;
      if !all || !dbOk { return; }
      chunks := chunks - {h};
      ok := true;
    }

    /** The removal loop: it stops at the first node that does not answer. */
    method RemoveObjects(h: Hash, nodes: set<NodeId>, flaky: set<NodeId>) returns (removed: set<NodeId>, all: bool)
      modifies this`objects
      ensures objects == old(objects)[h := Holders(old(Snapshot()), h) - removed]
      ensures removed <= nodes && removed !! down + flaky && (all ==> removed == nodes)
      ensures all <==> nodes !! down + flaky
    {
      var held := Holders(Snapshot(), h);
      var todo := nodes;
      removed := {};
      objects := objects[h := held];
      assert held - removed == held;
      while todo != {}
        invariant todo <= nodes && removed == nodes - todo && removed !! down + flaky
        invariant objects == old(objects)[h := held - removed]
      {
        var n :| n in todo;
        if n in down || n in flaky { return removed, false; }
        todo := todo - {n};
        removed := removed + {n};
        objects := objects[h := objects[h] - {n}];
        assert held - removed == objects[h];
      }
      all := true;
    }

    /** The sweep phase: list the candidates, then reap them one by one, in any order, each with
        faults of its own. What happened is a run of the machine: the scan and one reap attempt for
        every candidate. */
    method SweepPhase(flaky: Hash -> set<NodeId>, dbOk: Hash -> bool) returns (ghost acts: seq<Action>)
      requires sweep == Idle
      modifies this`chunks, this`objects, this`sweep
      ensures sweep == Sweeping({})
      ensures Snapshot() == Exec(cfg, old(Snapshot()), acts)
      ensures acts != [] && acts[0] == Scan && ReapsEach(acts[1..], DoScan(cfg, old(Snapshot())).sweep.candidates)
    {
      ghost var s := Snapshot();
      sweep := Sweeping(set h | h in chunks && chunks[h].gc.Doomed? && chunks[h].gc.since < now - cfg.grace);
      assert Snapshot() == DoScan(cfg, s);
      ghost var reaps := ReapCandidates(flaky, dbOk);
      acts := [Scan] + reaps;
      assert acts[1..] == reaps;
    }

    /** The loop of the sweep over its candidates. */
    method ReapCandidates(flaky: Hash -> set<NodeId>, dbOk: Hash -> bool) returns (ghost reaps: seq<Action>)
      requires sweep.Sweeping?
      modifies this`chunks, this`objects, this`sweep
      ensures sweep == Sweeping({})
      ensures Snapshot() == Exec(cfg, old(Snapshot()), reaps) && ReapsEach(reaps, old(sweep.candidates))
    {
      hide ReapsEach, DoReap, Reapable;
      ghost var s, all := Snapshot(), sweep.candidates;
      reaps := [];
      NothingReaped();
      assert all - sweep.candidates == {};
      while sweep.candidates != {}
        invariant sweep.Sweeping? && sweep.candidates <= all
        invariant Snapshot() == Exec(cfg, s, reaps) && ReapsEach(reaps, all - sweep.candidates)
        decreases if sweep.Sweeping? then sweep.candidates else {}
      {
        hide Exec;
        var h :| h in sweep.candidates;
        ghost var t, done := Snapshot(), all - sweep.candidates;
        var removed, ok := ReapChunk(h, flaky(h), dbOk(h));
        ReapExtends(cfg, s, reaps, t, h, removed, ok);
        ReapsOneMore(reaps, done, h, removed, ok);
        reaps := reaps + [Reap(h, removed, ok)];
        assert all - sweep.candidates == done + {h};
      }
      assert all - {} == all;
    }

    /** The chunk loop of CreateWithVersion and AddVersion: one row per hash, each under the
        foreign key; a violation rolls the whole transaction back. */
    method CreateVersion(c: CallId, v: VersionId) returns (inserted: bool)
      requires c in completions && completions[c].Checked? && v !in versions
      modifies this`versions, this`completions
      ensures Snapshot() == DoCreate(old(Snapshot()), c, v)
      ensures inserted <==> forall h :: h in old(completions[c]).order ==> h in chunks
      ensures inserted ==> v in versions && versions[v] == old(completions[c]).order
    {
      var call := completions[c];
      var rows: seq<Hash> := [];
      for i := 0 to |call.order|
        invariant rows == call.order[..i]
        invariant forall h :: h in rows ==> h in chunks
      {
        if call.order[i] !in chunks {
          assert call.order[i] in call.order;
          completions := completions - {c};
          return false;
        }
        rows := rows + [call.order[i]];
      }
      assert call.order[..|call.order|] == call.order;
      versions := versions[v := rows];
      completions := completions[c := Created(call.upload)];
      return true;
    }
  }

  function Uncommitted(s: State, u: UploadId, hashes: seq<Hash>): seq<Hash> {
    if hashes == [] then []
    else Uncommitted(s, u, hashes[..|hashes| - 1]) +
         if CommittedIn(s, u, hashes[|hashes| - 1]) then [] else [hashes[|hashes| - 1]]
  }

  lemma ProvenArePresent(s: State, org: OrgId, u: UploadId, candidates: seq<Hash>, proven: set<Hash>)
    requires forall h :: h in candidates ==> !CommittedIn(s, u, h)
    requires forall h :: h in proven <==>
      h in candidates && h in s.chunks && s.chunks[h].gc == Live && (org, h) in s.proofs
    ensures forall h :: h in candidates ==> (h in proven <==> PresentFor(s, org, u, h))
  {
  }

  lemma TouchesCandidates(s: State, u: UploadId, hashes: seq<Hash>, candidates: seq<Hash>)
    requires forall h :: h in candidates <==> h in hashes && !CommittedIn(s, u, h)
    ensures Touch(s, u, hashes) == map h | h in s.chunks ::
      if h in candidates && s.chunks[h].gc == Live then s.chunks[h].(lastSeen := s.now) else s.chunks[h]
  {
  }

  lemma {:induction false} UncommittedMembers(s: State, u: UploadId, hashes: seq<Hash>)
    ensures forall h :: h in Uncommitted(s, u, hashes) <==> h in hashes && !CommittedIn(s, u, h)
  {
    if hashes != [] {
      var front, last := hashes[..|hashes| - 1], hashes[|hashes| - 1];
      UncommittedMembers(s, u, front);
      assert hashes == front + [last];
    }
  }

  lemma {:induction false} MissingOfUncommitted(s: State, org: OrgId, u: UploadId, hashes: seq<Hash>)
    ensures Missing(s, org, u, Uncommitted(s, u, hashes)) == Missing(s, org, u, hashes)
  {
    if hashes != [] {
      var front, last := hashes[..|hashes| - 1], hashes[|hashes| - 1];
      MissingOfUncommitted(s, org, u, front);
      var un := Uncommitted(s, u, hashes);
      if !CommittedIn(s, u, last) {
        assert un[..|un| - 1] == Uncommitted(s, u, front);
      } else {
        assert un == Uncommitted(s, u, front);
      }
    }
  }

  /** One reap attempt for each of the hashes, and nothing else. */
  ghost predicate ReapsEach(acts: seq<Action>, hashes: set<Hash>) {
    && |acts| == |hashes|
    && (forall i :: 0 <= i < |acts| ==> acts[i].Reap? && acts[i].h in hashes)
    && (forall i, j :: 0 <= i < j < |acts| ==> acts[i].h != acts[j].h)
  }

  lemma NothingReaped()
    ensures ReapsEach([], {})
  {
  }

  lemma ReapsOneMore(acts: seq<Action>, hashes: set<Hash>, h: Hash, removed: set<NodeId>, ok: bool)
    requires ReapsEach(acts, hashes) && h !in hashes
    ensures ReapsEach(acts + [Reap(h, removed, ok)], hashes + {h})
  {
  }

  lemma ReapExtends(cfg: Config, s: State, acts: seq<Action>, t: State, h: Hash, removed: set<NodeId>, ok: bool)
    requires t == Exec(cfg, s, acts)
    ensures Exec(cfg, s, acts + [Reap(h, removed, ok)]) == DoReap(t, h, removed, ok)
  {
    ExecSnoc(cfg, s, acts, Reap(h, removed, ok));
  }
}
