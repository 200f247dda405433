/**
 The chunk lifecycle as one state machine: the tables `chunks` (with its cascading
 `chunk_locations`), `uploads` (with its cascading `upload_chunks`), `org_chunk_proofs` and
 `file_version_chunks`, the physical objects held by the storage nodes, the calls to
 CompleteUpload that are in flight, and the one sweeper.

 Every action is one SQL statement or transaction, or one reap attempt. An action the code
 rejects leaves the state as it was, so a run is any sequence of actions.
 */
module ChunkState {
  import opened Entities

  datatype CallId = CallId(id: nat)

  /** Times are microseconds on the database clock. */
  const UPLOAD_PIN_TTL: int := 24 * 60 * 60 * 1_000_000

  /** chunkSize and writeQuorum are switched off by a value that is not positive. */
  datatype Config = Config(grace: nat, writeQuorum: int, chunkSize: int)

  function Required(cfg: Config): (w: nat)
    ensures w >= 1 && w >= cfg.writeQuorum
  {
    if cfg.writeQuorum > 1 then cfg.writeQuorum else 1
  }

  datatype GcState = Live | Doomed(since: int)
  datatype LocationStatus = LocationCommitted | LocationDegraded
  datatype Chunk = Chunk(size: int, lastSeen: int, gc: GcState, locations: map<NodeId, LocationStatus>)

  datatype UploadStatus = InProgress | Completed
  datatype AttemptState = Presigned | Committed

  /** An `upload_chunks` row. `acked` is what the client knows: the nodes that acknowledged a
      PUT it made for this row. */
  datatype Attempt = Attempt(state: AttemptState, acked: set<NodeId>)
  datatype Upload = Upload(org: OrgId, createdAt: int, status: UploadStatus, attempts: map<Hash, Attempt>)

  /** A call of CompleteUpload between two of its statements. */
  datatype Completion =
    | Checked(upload: UploadId, order: seq<Hash>, at: int)
    | Created(upload: UploadId)

  datatype Sweep = Idle | Sweeping(candidates: set<Hash>)

  datatype State = State(
    now: int,
    chunks: map<Hash, Chunk>,
    objects: map<Hash, set<NodeId>>,
    uploads: map<UploadId, Upload>,
    issued: set<UploadId>,
    proofs: set<(OrgId, Hash)>,
    versions: map<VersionId, seq<Hash>>,
    completions: map<CallId, Completion>,
    sweep: Sweep,
    down: set<NodeId>)

  const Empty := State(0, map[], map[], map[], {}, {}, map[], map[], Idle, {})

  // ---------------------------------------------------------------- queries

  function Holders(s: State, h: Hash): set<NodeId> {
    if h in s.objects then s.objects[h] else {}
  }

  /** The recorded locations of h whose object is really there. */
  function Replicas(s: State, h: Hash): set<NodeId> {
    if h in s.chunks then s.chunks[h].locations.Keys * Holders(s, h) else {}
  }

  ghost predicate Durable(cfg: Config, s: State, h: Hash) {
    h in s.chunks && |Replicas(s, h)| >= Required(cfg)
  }

  predicate CommittedIn(s: State, u: UploadId, h: Hash) {
    u in s.uploads && h in s.uploads[u].attempts && s.uploads[u].attempts[h].state == Committed
  }

  predicate Running(s: State, u: UploadId) {
    u in s.uploads && s.uploads[u].status == InProgress
  }

  /** NOT EXISTS (file_version_chunks ...), negated. */
  predicate Referenced(s: State, h: Hash) {
    exists v :: v in s.versions && h in s.versions[v]
  }

  /** The upload pin the reap re-check looks at: any in-progress upload, whatever its age. */
  predicate Pinned(s: State, h: Hash) {
    exists u :: u in s.uploads && Running(s, u) && h in s.uploads[u].attempts
  }

  /** The upload pin the mark phase looks at: only sessions younger than the TTL. */
  predicate RecentlyPinned(s: State, h: Hash) {
    exists u :: u in s.uploads && Running(s, u) && h in s.uploads[u].attempts &&
      s.uploads[u].createdAt > s.now - UPLOAD_PIN_TTL
  }

  predicate Markable(cfg: Config, s: State, h: Hash) {
    && h in s.chunks
    && s.chunks[h].gc == Live
    && s.chunks[h].lastSeen < s.now - cfg.grace
    && !Referenced(s, h)
    && !RecentlyPinned(s, h)
  }

  predicate Reapable(s: State, h: Hash) {
    && h in s.chunks
    && s.chunks[h].gc.Doomed?
    && !Referenced(s, h)
    && !Pinned(s, h)
  }

  /** A hash counts as present for (org, u) when u committed it, or when it is live and org has
      proven it before. */
  predicate PresentFor(s: State, org: OrgId, u: UploadId, h: Hash) {
    || CommittedIn(s, u, h)
    || (h in s.chunks && s.chunks[h].gc == Live && (org, h) in s.proofs)
  }

  /** The two etag requirements of CommitChunk: all non-empty and all the same. */
  predicate EtagsAgree(etags: map<NodeId, string>) {
    && (forall n :: n in etags ==> etags[n] != "")
    && (forall m, n :: m in etags && n in etags ==> etags[m] == etags[n])
  }

  // ---------------------------------------------------------------- actions

  datatype RepairOutcome = StillThere | Unrepairable | Restored(source: NodeId)

  /** `seen` is the status in the snapshot of the upload row that the request handler loaded
      before it called the service: it may be out of date. */
  datatype Action =
    | CreateUpload(u: UploadId, org: OrgId)
    | InitChunk(u: UploadId, seen: UploadStatus, h: Hash)
    | Put(u: UploadId, h: Hash, node: NodeId)
    | CommitChunk(u: UploadId, seen: UploadStatus, h: Hash, size: int, etags: map<NodeId, string>)
    | CheckChunks(u: UploadId, org: OrgId, hashes: seq<Hash>)
    | BeginComplete(c: CallId, u: UploadId, org: OrgId, hashes: seq<Hash>)
    | CreateVersion(c: CallId, v: VersionId)
    | FinishComplete(c: CallId)
    | AbandonCall(c: CallId)
    | Purge(vs: set<VersionId>, us: set<UploadId>)
    | Mark
    | Scan
    | Reap(h: Hash, removed: set<NodeId>, ok: bool)
    | EndSweep
    | Repair(h: Hash, node: NodeId, outcome: RepairOutcome)
    | NodeDown(node: NodeId)
    | NodeUp(node: NodeId)
    | Tick(dt: nat)

  predicate CommitAccepted(cfg: Config, s: State, u: UploadId, seen: UploadStatus, h: Hash, size: int,
                           etags: map<NodeId, string>) {
    && seen == InProgress
    && u in s.uploads && h in s.uploads[u].attempts
    && s.uploads[u].attempts[h].state == Presigned
    && !(cfg.chunkSize > 0 && size > cfg.chunkSize)
    && |etags| != 0
    && !(cfg.writeQuorum > 0 && |etags| < cfg.writeQuorum)
    && EtagsAgree(etags)
  }

  /** Clients report only acknowledgements they received for this very attempt. */
  predicate Truthful(s: State, u: UploadId, h: Hash, etags: map<NodeId, string>) {
    u in s.uploads && h in s.uploads[u].attempts ==> etags.Keys <= s.uploads[u].attempts[h].acked
  }

  function Touch(s: State, u: UploadId, hashes: seq<Hash>): map<Hash, Chunk> {
    map h | h in s.chunks ::
      if h in hashes && !CommittedIn(s, u, h) && s.chunks[h].gc == Live
      then s.chunks[h].(lastSeen := s.now) else s.chunks[h]
  }

  function Committing(s: State, h: Hash, size: int, nodes: set<NodeId>): Chunk {
    var prev := if h in s.chunks then s.chunks[h] else Chunk(size, s.now, Live, map[]);
    prev.(lastSeen := s.now, gc := Live,
         locations := prev.locations + map n | n in nodes :: LocationCommitted)
  }

  function WithAttempt(s: State, u: UploadId, h: Hash, a: Attempt): map<UploadId, Upload>
    requires u in s.uploads
  {
    s.uploads[u := s.uploads[u].(attempts := s.uploads[u].attempts[h := a])]
  }

  function DoInitChunk(s: State, u: UploadId, seen: UploadStatus, h: Hash): (s': State)
    ensures s'.now == s.now && s'.issued == s.issued
  {
    if seen != InProgress || u !in s.uploads then s
    else if h in s.uploads[u].attempts then s // a committed row is left alone, a presigned one re-presigned
    else s.(uploads := WithAttempt(s, u, h, Attempt(Presigned, {})))
  }

  function DoPut(s: State, u: UploadId, h: Hash, node: NodeId): (s': State)
    ensures s'.now == s.now && s'.issued == s.issued
  {
    if node in s.down then s else
    var s' := s.(objects := s.objects[h := Holders(s, h) + {node}]);
    if u in s.uploads && h in s.uploads[u].attempts then
      var at := s.uploads[u].attempts[h];
      s'.(uploads := WithAttempt(s, u, h, at.(acked := at.acked + {node})))
    else s'
  }

  function DoCommit(cfg: Config, s: State, u: UploadId, seen: UploadStatus, h: Hash, size: int,
                    etags: map<NodeId, string>): (s': State)
    ensures s'.now == s.now && s'.issued == s.issued
  {
    if !CommitAccepted(cfg, s, u, seen, h, size, etags) || !Truthful(s, u, h, etags) then s else
    s.(uploads := WithAttempt(s, u, h, s.uploads[u].attempts[h].(state := Committed)),
       chunks := s.chunks[h := Committing(s, h, size, etags.Keys)],
       proofs := s.proofs + {(s.uploads[u].org, h)})
  }

  function DoBegin(s: State, c: CallId, u: UploadId, org: OrgId, hashes: seq<Hash>): (s': State)
    ensures s'.now == s.now && s'.issued == s.issued
  {
    if c in s.completions || u !in s.issued || hashes == [] then s else
    var s' := s.(chunks := Touch(s, u, hashes));
    if forall h :: h in hashes ==> PresentFor(s, org, u, h)
    then s'.(completions := s.completions[c := Checked(u, hashes, s.now)])
    else s'
  }

  function DoCreate(s: State, c: CallId, v: VersionId): (s': State)
    ensures s'.now == s.now && s'.issued == s.issued
  {
    if c !in s.completions || !s.completions[c].Checked? || v in s.versions then s else
    var call := s.completions[c];
    if forall h :: h in call.order ==> h in s.chunks // the foreign key on chunk_hash
    then s.(versions := s.versions[v := call.order], completions := s.completions[c := Created(call.upload)])
    else s.(completions := s.completions - {c})
  }

  function DoFinish(s: State, c: CallId): (s': State)
    ensures s'.now == s.now && s'.issued == s.issued
  {
    if c !in s.completions || !s.completions[c].Created? then s else
    var u := s.completions[c].upload;
    var s' := s.(completions := s.completions - {c});
    if Running(s, u) then s'.(uploads := s.uploads[u := s.uploads[u].(status := Completed)]) else s'
  }

  function DoMark(cfg: Config, s: State): (s': State)
    ensures s'.now == s.now && s'.uploads == s.uploads && s'.issued == s.issued
    ensures s'.versions == s.versions && s'.completions == s.completions
  {
    if s.sweep != Idle then s else
    s.(chunks := map h | h in s.chunks ::
         if Markable(cfg, s, h) then s.chunks[h].(gc := Doomed(s.now)) else s.chunks[h])
  }

  function DoScan(cfg: Config, s: State): (s': State)
    ensures s'.now == s.now && s'.uploads == s.uploads && s'.issued == s.issued
    ensures s'.versions == s.versions && s'.completions == s.completions
  {
    if s.sweep != Idle then s else
    s.(sweep := Sweeping(set h | h in s.chunks && s.chunks[h].gc.Doomed? && s.chunks[h].gc.since < s.now - cfg.grace))
  }

  /** One reap attempt. When a replica cannot be removed, or the final DELETE fails, the
      transaction is rolled back but the objects already removed stay gone. */
  function DoReap(s: State, h: Hash, removed: set<NodeId>, ok: bool): (s': State)
    ensures s'.now == s.now && s'.uploads == s.uploads && s'.issued == s.issued
    ensures s'.versions == s.versions && s'.completions == s.completions
  {
    if !s.sweep.Sweeping? || h !in s.sweep.candidates then s else
    var s' := s.(sweep := Sweeping(s.sweep.candidates - {h}));
    if !Reapable(s, h) then s' else
    var nodes := s.chunks[h].locations.Keys;
    if ok && nodes !! s.down then
      s'.(objects := s.objects[h := Holders(s, h) - nodes], chunks := s.chunks - {h})
    else
      s'.(objects := s.objects[h := Holders(s, h) - (removed * nodes - s.down)])
  }

  function DoRepair(s: State, h: Hash, node: NodeId, outcome: RepairOutcome): (s': State)
    ensures s'.now == s.now && s'.uploads == s.uploads && s'.issued == s.issued
    ensures s'.versions == s.versions && s'.completions == s.completions
  {
    if h !in s.chunks || node !in s.chunks[h].locations then s else
    var locs := s.chunks[h].locations;
    match outcome
    case StillThere => s
    case Unrepairable =>
      s.(chunks := s.chunks[h := s.chunks[h].(locations := locs[node := LocationDegraded])])
    case Restored(source) =>
      if source in locs && source != node && locs[source] == LocationCommitted && source in Holders(s, h) &&
        node !in s.down
      then s.(chunks := s.chunks[h := s.chunks[h].(locations := locs[node := LocationCommitted])],
              objects := s.objects[h := Holders(s, h) + {node}])
      else s
  }

  function Step(cfg: Config, s: State, a: Action): State {
    match a
    case CreateUpload(u, org) =>
      if u in s.issued then s else
      s.(uploads := s.uploads[u := Upload(org, s.now, InProgress, map[])], issued := s.issued + {u})
    case InitChunk(u, seen, h) => DoInitChunk(s, u, seen, h)
    case Put(u, h, node) => DoPut(s, u, h, node)
    case CommitChunk(u, seen, h, size, etags) => DoCommit(cfg, s, u, seen, h, size, etags)
    case CheckChunks(u, org, hashes) => s.(chunks := Touch(s, u, hashes))
    case BeginComplete(c, u, org, hashes) => DoBegin(s, c, u, org, hashes)
    case CreateVersion(c, v) => DoCreate(s, c, v)
    case FinishComplete(c) => DoFinish(s, c)
    case AbandonCall(c) => s.(completions := s.completions - {c})
    case Purge(vs, us) => s.(versions := s.versions - vs, uploads := s.uploads - us)
    case Mark => DoMark(cfg, s)
    case Scan => DoScan(cfg, s)
    case Reap(h, removed, ok) => DoReap(s, h, removed, ok)
    case EndSweep => s.(sweep := Idle)
    case Repair(h, node, outcome) => DoRepair(s, h, node, outcome)
    case NodeDown(node) => s.(down := s.down + {node})
    case NodeUp(node) => s.(down := s.down - {node})
    case Tick(dt) => s.(now := s.now + dt)
  }

  function Exec(cfg: Config, s: State, acts: seq<Action>): State
    decreases |acts|
  {
    if acts == [] then s else Exec(cfg, Step(cfg, s, acts[0]), acts[1..])
  }

  lemma {:induction false} ExecSnoc(cfg: Config, s: State, acts: seq<Action>, a: Action)
    ensures Exec(cfg, s, acts + [a]) == Step(cfg, Exec(cfg, s, acts), a)
    decreases |acts|
  {
    if acts == [] {
      assert [a][1..] == [] && acts + [a] == [a];
    } else {
      assert (acts + [a])[1..] == acts[1..] + [a];
      ExecSnoc(cfg, Step(cfg, s, acts[0]), acts[1..], a);
    }
  }
}
