/**
 What every action does to the tables, in their columns alone: exactly which rows it changes and when,
 what the changed rows hold, and that everything else stays as it was.
 */
module ChunkEffects {
  import opened Entities
  import opened ChunkState

  // ---------------------------------------------------------------- the sweeper

  /** A mark dooms h exactly when no sweep is on, h is live, its lease is older than the grace window, no
      version lists it, and every session in progress with an attempt for it is at least a day old. */
  lemma {:induction false} MarkDoomsIff(cfg: Config, s: State, h: Hash)
    requires h in s.chunks
    ensures var t := Step(cfg, s, Mark);
      && t == s.(chunks := t.chunks) && t.chunks.Keys == s.chunks.Keys
      && (t.chunks[h] != s.chunks[h] ==> t.chunks[h] == s.chunks[h].(gc := Doomed(s.now)))
      && (t.chunks[h] != s.chunks[h] <==>
            && s.sweep == Idle && s.chunks[h].gc == Live && s.chunks[h].lastSeen < s.now - cfg.grace
            && (forall v :: v in s.versions ==> h !in s.versions[v])
            && (forall u :: u in s.uploads && s.uploads[u].status == InProgress && h in s.uploads[u].attempts ==>
                  s.uploads[u].createdAt <= s.now - 86_400_000_000))
  {
  }

  /** A scan lists h exactly when it has been doomed for longer than the grace window. */
  lemma {:induction false} ScanListsIff(cfg: Config, s: State, h: Hash)
    ensures var t := Step(cfg, s, Scan);
      && t == s.(sweep := t.sweep)
      && (s.sweep != Idle ==> t == s)
      && (s.sweep == Idle ==> t.sweep.Sweeping?)
      && (s.sweep == Idle ==>
            (h in t.sweep.candidates <==>
               h in s.chunks && s.chunks[h].gc.Doomed? && s.chunks[h].gc.since < s.now - cfg.grace))
  {
  }

  /** A listed hash that is still doomed, that no version lists and that no session in progress, however
      old, has an attempt for. */
  predicate Collectable(s: State, h: Hash) {
    && s.sweep.Sweeping? && h in s.sweep.candidates
    && h in s.chunks && s.chunks[h].gc.Doomed?
    && (forall v :: v in s.versions ==> h !in s.versions[v])
    && (forall u :: u in s.uploads && s.uploads[u].status == InProgress ==> h !in s.uploads[u].attempts)
  }

  /** A reap deletes the row exactly when it may, its transaction commits and all recorded nodes answer. */
  lemma {:induction false} ReapDeletesIff(cfg: Config, s: State, h: Hash, removed: set<NodeId>, ok: bool)
    ensures var t := Step(cfg, s, Reap(h, removed, ok));
      && t == s.(chunks := t.chunks, objects := t.objects, sweep := t.sweep)
      && t.sweep == (if s.sweep.Sweeping? then Sweeping(s.sweep.candidates - {h}) else Idle)
      && (t.chunks == s.chunks || (h in s.chunks && t.chunks == s.chunks - {h}))
      && (h in s.chunks ==>
            (h !in t.chunks <==> Collectable(s, h) && ok && s.chunks[h].locations.Keys !! s.down))
  {
  }

  /** The object of k on n goes exactly when k is the hash reaped, may be, and is recorded on n, and either
      the reap deletes the row or n is up and was reached before the attempt failed. */
  lemma {:induction false} ReapRemovesIff(cfg: Config, s: State, h: Hash, removed: set<NodeId>, ok: bool, k: Hash,
                                          n: NodeId)
    ensures var t := Step(cfg, s, Reap(h, removed, ok));
      n in Holders(t, k) <==>
      && n in Holders(s, k)
      && !(k == h && Collectable(s, h) && n in s.chunks[h].locations && (h !in t.chunks || n in removed - s.down))
  {
  }

  // ---------------------------------------------------------------- leases

  /** A check renews exactly the listed live chunks that the upload has not committed. */
  lemma {:induction false} CheckRenewsIff(cfg: Config, s: State, u: UploadId, org: OrgId, hashes: seq<Hash>, h: Hash)
    requires h in s.chunks
    ensures var t := Step(cfg, s, CheckChunks(u, org, hashes));
      && t == s.(chunks := t.chunks) && t.chunks.Keys == s.chunks.Keys
      && t.chunks[h].(lastSeen := s.chunks[h].lastSeen) == s.chunks[h]
      && t.chunks[h].lastSeen ==
        if && h in hashes && s.chunks[h].gc == Live
           && !(u in s.uploads && h in s.uploads[u].attempts && s.uploads[u].attempts[h].state == Committed)
        then s.now else s.chunks[h].lastSeen
  {
  }

  /** Beginning a completion renews like a check, and records the call, with the list in the order given,
      exactly when every hash is committed by this upload or is live and proven by its organization. */
  lemma {:induction false} BeginRecordsIff(cfg: Config, s: State, c: CallId, u: UploadId, org: OrgId, hashes: seq<Hash>)
    requires c !in s.completions
    ensures var t := Step(cfg, s, BeginComplete(c, u, org, hashes));
      if u in s.issued && hashes != [] then
        && t == Step(cfg, s, CheckChunks(u, org, hashes)).(completions := t.completions)
        && (c in t.completions ==> t.completions == s.completions[c := Checked(u, hashes, s.now)])
        && (c !in t.completions ==> t.completions == s.completions)
        && (c in t.completions <==> forall h :: h in hashes ==>
              || (u in s.uploads && h in s.uploads[u].attempts && s.uploads[u].attempts[h].state == Committed)
              || (h in s.chunks && s.chunks[h].gc == Live && (org, h) in s.proofs))
      else t == s
  {
    var t := Step(cfg, s, BeginComplete(c, u, org, hashes));
    if u in s.issued && hashes != [] {
      assert c in t.completions <==> forall h :: h in hashes ==> PresentFor(s, org, u, h);
    }
  }

  // ---------------------------------------------------------------- uploads

  lemma {:induction false} InitAddsIff(cfg: Config, s: State, u: UploadId, seen: UploadStatus, h: Hash)
    ensures var t := Step(cfg, s, InitChunk(u, seen, h));
      && (t != s <==> seen == InProgress && u in s.uploads && h !in s.uploads[u].attempts)
      && (t != s ==> t == s.(uploads := s.uploads[u := s.uploads[u].(
            attempts := s.uploads[u].attempts[h := Attempt(Presigned, {})])]))
  {
    var t := Step(cfg, s, InitChunk(u, seen, h));
    if u in s.uploads && h !in s.uploads[u].attempts && seen == InProgress {
      assert h in t.uploads[u].attempts;
    }
  }

  /** A PUT to a node that is up leaves the object there, and is known to a session with an attempt. */
  lemma {:induction false} PutLands(cfg: Config, s: State, u: UploadId, h: Hash, node: NodeId)
    ensures var t := Step(cfg, s, Put(u, h, node));
      if node in s.down then t == s else
        && t == s.(objects := t.objects, uploads := t.uploads)
        && t.objects == s.objects[h := (if h in s.objects then s.objects[h] else {}) + {node}]
        && (u in s.uploads && h in s.uploads[u].attempts ==>
              t.uploads == s.uploads[u := s.uploads[u].(attempts := s.uploads[u].attempts[h :=
                Attempt(s.uploads[u].attempts[h].state, s.uploads[u].attempts[h].acked + {node})])])
        && (!(u in s.uploads && h in s.uploads[u].attempts) ==> t.uploads == s.uploads)
  {
  }

  /** A commit is accepted exactly when the session the handler saw was in progress, the attempt is
      presigned, the size fits, and enough nodes, all of them ones the client heard from, report one and
      the same etag. */
  lemma {:induction false} CommitAcceptsIff(cfg: Config, s: State, u: UploadId, seen: UploadStatus, h: Hash, size: int,
                                            etags: map<NodeId, string>)
    ensures Step(cfg, s, CommitChunk(u, seen, h, size, etags)) != s <==>
      && seen == InProgress
      && u in s.uploads && h in s.uploads[u].attempts && s.uploads[u].attempts[h].state == Presigned
      && (cfg.chunkSize <= 0 || size <= cfg.chunkSize)
      && |etags| >= 1 && |etags| >= cfg.writeQuorum
      && (forall n :: n in etags ==> etags[n] != "")
      && (forall m, n :: m in etags && n in etags ==> etags[m] == etags[n])
      && etags.Keys <= s.uploads[u].attempts[h].acked
  {
    var t := Step(cfg, s, CommitChunk(u, seen, h, size, etags));
    if CommitAccepted(cfg, s, u, seen, h, size, etags) && Truthful(s, u, h, etags) {
      assert t.uploads[u].attempts[h].state == Committed;
    }
  }

  /** An accepted commit makes the chunk live with a fresh lease, adds the reporting nodes to its
      locations, keeps the size first recorded, and proves the hash for the session's organization. */
  lemma {:induction false} CommitWrites(cfg: Config, s: State, u: UploadId, seen: UploadStatus, h: Hash, size: int,
                                        etags: map<NodeId, string>)
    requires Step(cfg, s, CommitChunk(u, seen, h, size, etags)) != s
    ensures var t := Step(cfg, s, CommitChunk(u, seen, h, size, etags));
      && u in s.uploads && h in s.uploads[u].attempts && h in t.chunks
      && t == s.(uploads := t.uploads, chunks := t.chunks, proofs := s.proofs + {(s.uploads[u].org, h)})
      && t.uploads == s.uploads[u := s.uploads[u].(attempts := s.uploads[u].attempts[h :=
           Attempt(Committed, s.uploads[u].attempts[h].acked)])]
      && t.chunks == s.chunks[h := t.chunks[h]]
      && t.chunks[h].gc == Live && t.chunks[h].lastSeen == s.now
      && t.chunks[h].size == (if h in s.chunks then s.chunks[h].size else size)
  {
  }

  lemma {:induction false} CommitLocates(cfg: Config, s: State, u: UploadId, seen: UploadStatus, h: Hash, size: int,
                                         etags: map<NodeId, string>, n: NodeId)
    requires Step(cfg, s, CommitChunk(u, seen, h, size, etags)) != s
    ensures var t := Step(cfg, s, CommitChunk(u, seen, h, size, etags));
      && h in t.chunks
      && (n in t.chunks[h].locations <==> n in etags || (h in s.chunks && n in s.chunks[h].locations))
      && (n in etags ==> t.chunks[h].locations[n] == LocationCommitted)
      && (n in t.chunks[h].locations && n !in etags ==> t.chunks[h].locations[n] == s.chunks[h].locations[n])
  {
  }

  // ---------------------------------------------------------------- completions

  /** A checked call inserts its list, in its order, exactly when a row is there for every hash; the
      call then goes on to mark its upload, and otherwise ends. */
  lemma {:induction false} CreateInsertsIff(cfg: Config, s: State, c: CallId, v: VersionId)
    requires c in s.completions && s.completions[c].Checked? && v !in s.versions
    ensures var t := Step(cfg, s, CreateVersion(c, v));
      && t == s.(versions := t.versions, completions := t.completions)
      && (v in t.versions <==> forall h :: h in s.completions[c].order ==> h in s.chunks)
      && (v in t.versions ==> t.versions == s.versions[v := s.completions[c].order])
      && (v in t.versions ==> t.completions == s.completions[c := Created(s.completions[c].upload)])
      && (v !in t.versions ==> t.versions == s.versions && t.completions == s.completions - {c})
  {
  }

  /** A call that has inserted ends, and completes its upload if that is still in progress. */
  lemma {:induction false} FinishCompletes(cfg: Config, s: State, c: CallId)
    requires c in s.completions && s.completions[c].Created?
    ensures var u, t := s.completions[c].upload, Step(cfg, s, FinishComplete(c));
      && t == s.(completions := s.completions - {c}, uploads := t.uploads)
      && (u in s.uploads ==> t.uploads == s.uploads[u := s.uploads[u].(status := Completed)])
      && (u !in s.uploads ==> t.uploads == s.uploads)
  {
    var u := s.completions[c].upload;
    if u in s.uploads && s.uploads[u].status == Completed {
      assert s.uploads[u].(status := Completed) == s.uploads[u];
    }
  }

  lemma {:induction false} CallsOutOfTurn(cfg: Config, s: State, c: CallId, v: VersionId)
    ensures c !in s.completions || s.completions[c].Created? || v in s.versions ==>
      Step(cfg, s, CreateVersion(c, v)) == s
    ensures c !in s.completions || s.completions[c].Checked? ==> Step(cfg, s, FinishComplete(c)) == s
    ensures c in s.completions ==> forall u, org, hashes :: Step(cfg, s, BeginComplete(c, u, org, hashes)) == s
  {
  }

  // ---------------------------------------------------------------- repair, nodes and time

  /** A repair touches the one location only: degraded when nothing could be fetched, and committed, with
      the object back, exactly when another committed location of the hash has it and the node is up. */
  lemma {:induction false} RepairTouches(cfg: Config, s: State, h: Hash, node: NodeId, outcome: RepairOutcome)
    requires h in s.chunks && node in s.chunks[h].locations
    ensures var t, locs := Step(cfg, s, Repair(h, node, outcome)), s.chunks[h].locations;
      match outcome
      case StillThere => t == s
      case Unrepairable => t == s.(chunks := s.chunks[h := s.chunks[h].(locations := locs[node := LocationDegraded])])
      case Restored(source) =>
        if && source != node && source in locs && locs[source] == LocationCommitted
           && h in s.objects && source in s.objects[h] && node !in s.down
        then t == s.(chunks := s.chunks[h := s.chunks[h].(locations := locs[node := LocationCommitted])],
                     objects := s.objects[h := s.objects[h] + {node}])
        else t == s
  {
  }

  lemma {:induction false} OthersTouch(cfg: Config, s: State, a: Action)
    ensures var t := Step(cfg, s, a);
      match a
      case CreateUpload(u, org) =>
        if u in s.issued then t == s else
          t == s.(uploads := s.uploads[u := Upload(org, s.now, InProgress, map[])], issued := s.issued + {u})
      case Purge(vs, us) =>
        && t == s.(versions := t.versions, uploads := t.uploads)
        && t.versions.Keys == s.versions.Keys - vs && (forall v :: v in t.versions ==> t.versions[v] == s.versions[v])
        && t.uploads.Keys == s.uploads.Keys - us && (forall u :: u in t.uploads ==> t.uploads[u] == s.uploads[u])
      case AbandonCall(c) => t == s.(completions := s.completions - {c})
      case EndSweep => t == s.(sweep := Idle)
      case NodeDown(n) => t == s.(down := s.down + {n})
      case NodeUp(n) => t == s.(down := s.down - {n})
      case Tick(dt) => t == s.(now := s.now + dt)
      case Repair(h, node, _) => h !in s.chunks || node !in s.chunks[h].locations ==> t == s
      case _ => true
  {
    hide DoInitChunk, DoPut, DoCommit, DoBegin, DoCreate, DoFinish, DoMark, DoScan, DoReap, Touch;
  }
}
