/**
 Safety of the collector over whole runs: no reap ever costs a file version, or an upload that
 is still in progress, a replica it was promised; and no chunk is touched by the sweeper before
 two grace windows have passed since its lease was last renewed.
 */
module ChunkSafety {
  import opened Entities
  import opened ChunkState

  // ---------------------------------------------------------------- the clock invariant

  ghost predicate LeaseTimes(cfg: Config, s: State) {
    forall h :: h in s.chunks ==>
      && s.chunks[h].lastSeen <= s.now
      && (s.chunks[h].gc.Doomed? ==> s.chunks[h].lastSeen + cfg.grace < s.chunks[h].gc.since <= s.now)
  }

  ghost predicate SweepTimes(cfg: Config, s: State) {
    s.sweep.Sweeping? ==> forall h :: h in s.sweep.candidates && h in s.chunks && s.chunks[h].gc.Doomed? ==>
      s.chunks[h].gc.since + cfg.grace < s.now
  }

  ghost predicate CallTimes(s: State) {
    && (forall c :: c in s.completions && s.completions[c].Checked? ==> s.completions[c].at <= s.now)
    && (forall u :: u in s.uploads ==> u in s.issued)
    && (forall c :: c in s.completions ==> s.completions[c].upload in s.issued)
  }

  /** What holds of the timestamps in every state of every run. */
  ghost predicate ClockInv(cfg: Config, s: State) {
    LeaseTimes(cfg, s) && SweepTimes(cfg, s) && CallTimes(s)
  }

  lemma InitClock(cfg: Config, s: State, u: UploadId, seen: UploadStatus, h: Hash)
    requires ClockInv(cfg, s)
    ensures ClockInv(cfg, DoInitChunk(s, u, seen, h))
  {
  }

  lemma PutClock(cfg: Config, s: State, u: UploadId, h: Hash, node: NodeId)
    requires ClockInv(cfg, s)
    ensures ClockInv(cfg, DoPut(s, u, h, node))
  {
  }

  lemma CommitClock(cfg: Config, s: State, u: UploadId, seen: UploadStatus, h: Hash, size: int,
                    etags: map<NodeId, string>)
    requires ClockInv(cfg, s)
    ensures ClockInv(cfg, DoCommit(cfg, s, u, seen, h, size, etags))
  {
    CommitCalls(cfg, s, u, seen, h, size, etags);
    hide CallTimes;
  }

  lemma CommitCalls(cfg: Config, s: State, u: UploadId, seen: UploadStatus, h: Hash, size: int,
                    etags: map<NodeId, string>)
    requires CallTimes(s)
    ensures CallTimes(DoCommit(cfg, s, u, seen, h, size, etags))
  {
  }

  lemma CheckClock(cfg: Config, s: State, u: UploadId, hashes: seq<Hash>)
    requires ClockInv(cfg, s)
    ensures ClockInv(cfg, s.(chunks := Touch(s, u, hashes)))
  {
  }

  lemma BeginClock(cfg: Config, s: State, c: CallId, u: UploadId, org: OrgId, hashes: seq<Hash>)
    requires ClockInv(cfg, s)
    ensures ClockInv(cfg, DoBegin(s, c, u, org, hashes))
  {
    var s' := DoBegin(s, c, u, org, hashes);
    CheckClock(cfg, s, u, hashes);
    assert LeaseTimes(cfg, s') && SweepTimes(cfg, s');
  }

  lemma CreateClock(cfg: Config, s: State, c: CallId, v: VersionId)
    requires ClockInv(cfg, s)
    ensures ClockInv(cfg, DoCreate(s, c, v))
  {
    CreateCalls(s, c, v);
    hide CallTimes;
  }

  lemma CreateCalls(s: State, c: CallId, v: VersionId)
    requires CallTimes(s)
    ensures CallTimes(DoCreate(s, c, v))
  {
  }

  lemma FinishClock(cfg: Config, s: State, c: CallId)
    requires ClockInv(cfg, s)
    ensures ClockInv(cfg, DoFinish(s, c))
  {
  }

  lemma MarkClock(cfg: Config, s: State)
    requires ClockInv(cfg, s)
    ensures ClockInv(cfg, DoMark(cfg, s))
  {
  }

  lemma ScanClock(cfg: Config, s: State)
    requires ClockInv(cfg, s)
    ensures ClockInv(cfg, DoScan(cfg, s))
  {
  }

  lemma ReapClock(cfg: Config, s: State, h: Hash, removed: set<NodeId>, ok: bool)
    requires ClockInv(cfg, s)
    ensures ClockInv(cfg, DoReap(s, h, removed, ok))
  {
  }

  lemma RepairClock(cfg: Config, s: State, h: Hash, node: NodeId, outcome: RepairOutcome)
    requires ClockInv(cfg, s)
    ensures ClockInv(cfg, DoRepair(s, h, node, outcome))
  {
  }

  lemma QuietClock(cfg: Config, s: State, a: Action)
    requires ClockInv(cfg, s)
    requires a.CreateUpload? || a.AbandonCall? || a.Purge? || a.EndSweep? || a.NodeDown? || a.NodeUp? || a.Tick?
    ensures ClockInv(cfg, Step(cfg, s, a))
  {
  }

  lemma StepKeepsClock(cfg: Config, s: State, a: Action)
    requires ClockInv(cfg, s)
    ensures ClockInv(cfg, Step(cfg, s, a))
  {
    hide ClockInv;
    match a
    case InitChunk(u, seen, h) => InitClock(cfg, s, u, seen, h);
    case Put(u, h, node) => PutClock(cfg, s, u, h, node);
    case CommitChunk(u, seen, h, size, etags) => CommitClock(cfg, s, u, seen, h, size, etags);
    case CheckChunks(u, _, hashes) => CheckClock(cfg, s, u, hashes);
    case BeginComplete(c, u, org, hashes) => BeginClock(cfg, s, c, u, org, hashes);
    case CreateVersion(c, v) => CreateClock(cfg, s, c, v);
    case FinishComplete(c) => FinishClock(cfg, s, c);
    case Mark => MarkClock(cfg, s);
    case Scan => ScanClock(cfg, s);
    case Reap(h, removed, ok) => ReapClock(cfg, s, h, removed, ok);
    case Repair(h, node, outcome) => RepairClock(cfg, s, h, node, outcome);
    case _ => QuietClock(cfg, s, a);
  }

  lemma {:induction false} ExecKeepsClock(cfg: Config, s: State, acts: seq<Action>)
    requires ClockInv(cfg, s)
    ensures ClockInv(cfg, Exec(cfg, s, acts))
    decreases |acts|
  {
    if acts != [] {
      StepKeepsClock(cfg, s, acts[0]);
      ExecKeepsClock(cfg, Step(cfg, s, acts[0]), acts[1..]);
    }
  }

  // ---------------------------------------------------------------- the safety invariant

  /** What the files and sessions of the store were promised. */
  ghost predicate Safe(cfg: Config, s: State) {
    && (forall v, h :: v in s.versions && h in s.versions[v] ==> Durable(cfg, s, h))
    && (forall u, h :: Running(s, u) && CommittedIn(s, u, h) ==> Durable(cfg, s, h))
  }

  ghost predicate AcksHeld(s: State) {
    forall u, h :: Running(s, u) && h in s.uploads[u].attempts ==> s.uploads[u].attempts[h].acked <= Holders(s, h)
  }

  ghost predicate LiveDurable(cfg: Config, s: State) {
    forall h :: h in s.chunks && s.chunks[h].gc == Live ==> Durable(cfg, s, h)
  }

  ghost predicate Leased(cfg: Config, s: State, h: Hash, at: int) {
    Durable(cfg, s, h) && s.chunks[h].lastSeen >= at
  }

  /** Every hash a checked completion lists is committed by its upload or freshly leased. */
  ghost predicate Backed(cfg: Config, s: State, call: Completion)
    requires call.Checked?
  {
    forall h :: h in call.order ==> CommittedIn(s, call.upload, h) || Leased(cfg, s, h, call.at)
  }

  /** A checked completion still in its window can rely on every hash it lists. */
  ghost predicate CompletionsBacked(cfg: Config, s: State) {
    forall c :: c in s.completions && s.completions[c].Checked? && InWindow(cfg, s, s.completions[c]) ==>
      Backed(cfg, s, s.completions[c])
  }

  /** How long a completion can rely on its check: the two grace windows of the sweeper, which acts
      only strictly after each. */
  function Window(cfg: Config): nat { 2 * cfg.grace + 1 }

  ghost predicate InWindow(cfg: Config, s: State, call: Completion)
    requires call.Checked?
  {
    Running(s, call.upload) && s.now <= call.at + Window(cfg)
  }

  ghost predicate SafeInv(cfg: Config, s: State) {
    ClockInv(cfg, s) && Safe(cfg, s) && AcksHeld(s) && LiveDurable(cfg, s) && CompletionsBacked(cfg, s)
  }

  /** The insert goes through: the call was checked and the foreign key holds. */
  predicate Inserts(s: State, c: CallId, v: VersionId) {
    c in s.completions && s.completions[c].Checked? && v !in s.versions &&
    forall h :: h in s.completions[c].order ==> h in s.chunks
  }

  /** Tests the service could make before it acts: that an upload is still in progress when a commit
      is accepted, and when a version is inserted; and how long ago the completion was checked. */
  datatype Tests = Tests(window: nat, commitRunning: bool, createRunning: bool)

  /** The tests that are enough. */
  predicate Enough(cfg: Config, tests: Tests) {
    tests.commitRunning && tests.createRunning && tests.window <= Window(cfg)
  }

  /** The step passes the tests. Steps the server rejects anyway pass. */
  ghost predicate Prompt(cfg: Config, tests: Tests, s: State, a: Action) {
    match a
    case CommitChunk(u, seen, h, size, etags) =>
      tests.commitRunning && CommitAccepted(cfg, s, u, seen, h, size, etags) ==> Running(s, u)
    case CreateVersion(c, v) =>
      Inserts(s, c, v) ==>
        && s.now <= s.completions[c].at + tests.window
        && (tests.createRunning ==> Running(s, s.completions[c].upload))
    case _ => true
  }

  ghost predicate PromptRun(cfg: Config, tests: Tests, s: State, acts: seq<Action>)
    decreases |acts|
  {
    acts == [] || (Prompt(cfg, tests, s, acts[0]) && PromptRun(cfg, tests, Step(cfg, s, acts[0]), acts[1..]))
  }

  lemma SubsetSize<T>(a: set<T>, b: set<T>)
    requires a <= b
    ensures |a| <= |b|
  {
    assert b == a + (b - a);
  }

  /** No chunk row, recorded location, lease or object is lost from s to s'. */
  ghost predicate Grows(s: State, s': State) {
    && s.now <= s'.now
    && (forall h :: h in s.chunks ==>
          && h in s'.chunks
          && s.chunks[h].locations.Keys <= s'.chunks[h].locations.Keys
          && s.chunks[h].lastSeen <= s'.chunks[h].lastSeen)
    && (forall h :: h in s.objects ==> s.objects[h] <= Holders(s', h))
  }

  lemma DurableGrows(cfg: Config, s: State, s': State, h: Hash)
    requires Grows(s, s') && Durable(cfg, s, h)
    ensures Durable(cfg, s', h)
  {
    SubsetSize(Replicas(s, h), Replicas(s', h));
  }

  ghost predicate AllDurable(cfg: Config, s: State, order: seq<Hash>) {
    forall h :: h in order ==> Durable(cfg, s, h)
  }

  function Acked(s: State, u: UploadId, h: Hash): set<NodeId> {
    if Running(s, u) && h in s.uploads[u].attempts then s.uploads[u].attempts[h].acked else {}
  }

  /** What a step may do to the uploads still in progress: open a new one, collect
      acknowledgements for objects that are there, commit a fresh hash. */
  ghost predicate UploadsCarried(s: State, s': State, added: set<Hash>) {
    && (forall u :: Running(s', u) ==> Running(s, u) || u !in s.issued)
    && (forall u, h :: Running(s', u) ==> Acked(s', u, h) <= Acked(s, u, h) + Holders(s', h))
    && (forall u, h :: Running(s', u) && CommittedIn(s, u, h) ==> CommittedIn(s', u, h))
    && (forall u, h :: Running(s', u) && CommittedIn(s', u, h) ==> CommittedIn(s, u, h) || h in added)
  }

  ghost predicate ReferencesCarried(cfg: Config, s: State, s': State) {
    && (forall v :: v in s'.versions ==>
          (v in s.versions && s'.versions[v] == s.versions[v]) || AllDurable(cfg, s', s'.versions[v]))
    && (forall c :: c in s'.completions && s'.completions[c].Checked? ==>
          (c in s.completions && s'.completions[c] == s.completions[c]) || Backed(cfg, s', s'.completions[c]))
  }

  ghost predicate LiveCarried(s: State, s': State, added: set<Hash>) {
    forall h :: h in s'.chunks && s'.chunks[h].gc == Live ==> (h in s.chunks && s.chunks[h].gc == Live) || h in added
  }

  /** A step that loses nothing and backs whatever it adds. `added` are the hashes it has just
      made durable. */
  ghost predicate Carries(cfg: Config, s: State, s': State, added: set<Hash>) {
    && Grows(s, s')
    && LiveCarried(s, s', added)
    && UploadsCarried(s, s', added)
    && ReferencesCarried(cfg, s, s')
  }

  lemma CarryingKeeps(cfg: Config, s: State, s': State, added: set<Hash>)
    requires SafeInv(cfg, s) && ClockInv(cfg, s') && Carries(cfg, s, s', added)
    requires forall h :: h in added ==> Durable(cfg, s', h)
    ensures SafeInv(cfg, s')
  {
    forall h | Durable(cfg, s, h) ensures Durable(cfg, s', h) {
      DurableGrows(cfg, s, s', h);
    }
    assert LiveDurable(cfg, s');
    forall u, h | Running(s', u) && CommittedIn(s', u, h) ensures Durable(cfg, s', h) {
      assert CommittedIn(s, u, h) ==> Running(s, u);
    }
    assert Safe(cfg, s');
    forall u, h | Running(s', u) && h in s'.uploads[u].attempts ensures Acked(s', u, h) <= Holders(s', h) {
      assert Acked(s, u, h) <= Holders(s, h);
    }
    assert AcksHeld(s');
    CallsStayBacked(cfg, s, s');
  }

  lemma CallsStayBacked(cfg: Config, s: State, s': State)
    requires ClockInv(cfg, s) && CompletionsBacked(cfg, s) && Grows(s, s') && ReferencesCarried(cfg, s, s')
    requires forall u :: Running(s', u) ==> Running(s, u) || u !in s.issued
    requires forall u, h :: Running(s', u) && CommittedIn(s, u, h) ==> CommittedIn(s', u, h)
    ensures CompletionsBacked(cfg, s')
  {
    forall c | c in s'.completions && s'.completions[c].Checked? && InWindow(cfg, s', s'.completions[c])
      ensures Backed(cfg, s', s'.completions[c])
    {
      var call := s'.completions[c];
      if c in s.completions && call == s.completions[c] {
        assert InWindow(cfg, s, call);
        forall h | h in call.order ensures CommittedIn(s', call.upload, h) || Leased(cfg, s', h, call.at) {
          if !CommittedIn(s, call.upload, h) { DurableGrows(cfg, s, s', h); }
        }
      }
    }
  }

  lemma SameUploads(s: State, s': State, added: set<Hash>)
    requires s'.uploads == s.uploads
    requires forall h :: h in s.objects ==> Holders(s, h) <= Holders(s', h)
    ensures UploadsCarried(s, s', added)
  {
  }

  lemma SameChunks(s: State, s': State, added: set<Hash>)
    requires s'.chunks == s.chunks && s'.objects == s.objects && s.now <= s'.now
    ensures Grows(s, s') && LiveCarried(s, s', added)
  {
  }

  lemma SameReferences(cfg: Config, s: State, s': State)
    requires s'.versions == s.versions && s'.completions == s.completions
    ensures ReferencesCarried(cfg, s, s')
  {
  }

  // ---------------------------------------------------------------- one step

  lemma CreateUploadKeeps(cfg: Config, s: State, u: UploadId, org: OrgId)
    requires SafeInv(cfg, s)
    ensures SafeInv(cfg, Step(cfg, s, CreateUpload(u, org)))
  {
    hide Grows, LiveCarried, UploadsCarried, ReferencesCarried, Safe, AcksHeld, LiveDurable, CompletionsBacked;
    var s' := Step(cfg, s, CreateUpload(u, org));
    StepKeepsClock(cfg, s, CreateUpload(u, org));
    SameReferences(cfg, s, s');
    CreateUploadUploads(cfg, s, u, org);
    SameChunks(s, s', {});
    CarryingKeeps(cfg, s, s', {});
  }

  lemma CreateUploadUploads(cfg: Config, s: State, u: UploadId, org: OrgId)
    requires CallTimes(s)
    ensures UploadsCarried(s, Step(cfg, s, CreateUpload(u, org)), {})
  {
  }

  lemma InitKeeps(cfg: Config, s: State, u: UploadId, seen: UploadStatus, h: Hash)
    requires SafeInv(cfg, s)
    ensures SafeInv(cfg, DoInitChunk(s, u, seen, h))
  {
    hide Grows, LiveCarried, UploadsCarried, ReferencesCarried, ClockInv, Safe, AcksHeld, LiveDurable,
      CompletionsBacked;
    var s' := DoInitChunk(s, u, seen, h);
    InitClock(cfg, s, u, seen, h);
    SameReferences(cfg, s, s');
    InitUploads(s, u, seen, h);
    SameChunks(s, s', {});
    CarryingKeeps(cfg, s, s', {});
  }

  lemma InitUploads(s: State, u: UploadId, seen: UploadStatus, h: Hash)
    ensures UploadsCarried(s, DoInitChunk(s, u, seen, h), {})
  {
  }

  lemma PutKeeps(cfg: Config, s: State, u: UploadId, h: Hash, node: NodeId)
    requires SafeInv(cfg, s)
    ensures SafeInv(cfg, DoPut(s, u, h, node))
  {
    hide Grows, LiveCarried, UploadsCarried, ReferencesCarried, ClockInv, Safe, AcksHeld, LiveDurable,
      CompletionsBacked;
    var s' := DoPut(s, u, h, node);
    PutClock(cfg, s, u, h, node);
    SameReferences(cfg, s, s');
    PutUploads(s, u, h, node);
    PutGrows(s, u, h, node);
    CarryingKeeps(cfg, s, s', {});
  }

  lemma PutGrows(s: State, u: UploadId, h: Hash, node: NodeId)
    ensures Grows(s, DoPut(s, u, h, node)) && LiveCarried(s, DoPut(s, u, h, node), {})
  {
  }

  lemma PutUploads(s: State, u: UploadId, h: Hash, node: NodeId)
    ensures UploadsCarried(s, DoPut(s, u, h, node), {})
  {
    var s' := DoPut(s, u, h, node);
    forall v | Running(s', v)
      ensures Running(s, v)
      ensures forall k :: CommittedIn(s', v, k) == CommittedIn(s, v, k)
      ensures forall k :: Acked(s', v, k) <= Acked(s, v, k) + Holders(s', k)
    {
    }
    hide DoPut, Running, CommittedIn, Acked;
  }

  lemma CommitKeeps(cfg: Config, s: State, u: UploadId, seen: UploadStatus, h: Hash, size: int,
                    etags: map<NodeId, string>)
    requires SafeInv(cfg, s) && Running(s, u)
    ensures SafeInv(cfg, DoCommit(cfg, s, u, seen, h, size, etags))
  {
    var s' := DoCommit(cfg, s, u, seen, h, size, etags);
    if CommitAccepted(cfg, s, u, seen, h, size, etags) && Truthful(s, u, h, etags) {
      CommitClock(cfg, s, u, seen, h, size, etags);
      CommitDurable(cfg, s, u, seen, h, size, etags);
      SameReferences(cfg, s, s');
      CommitUploads(cfg, s, u, seen, h, size, etags);
      CommitGrows(cfg, s, u, seen, h, size, etags);
      CarryingKeeps(cfg, s, s', {h});
    }
  }

  lemma CommitGrows(cfg: Config, s: State, u: UploadId, seen: UploadStatus, h: Hash, size: int,
                    etags: map<NodeId, string>)
    requires LeaseTimes(cfg, s)
    ensures Grows(s, DoCommit(cfg, s, u, seen, h, size, etags))
    ensures LiveCarried(s, DoCommit(cfg, s, u, seen, h, size, etags), {h})
  {
  }

  lemma CommitUploads(cfg: Config, s: State, u: UploadId, seen: UploadStatus, h: Hash, size: int,
                      etags: map<NodeId, string>)
    ensures UploadsCarried(s, DoCommit(cfg, s, u, seen, h, size, etags), {h})
  {
    var s' := DoCommit(cfg, s, u, seen, h, size, etags);
    forall v | Running(s', v)
      ensures Running(s, v)
      ensures forall k :: Acked(s', v, k) == Acked(s, v, k)
      ensures forall k :: k != h ==> CommittedIn(s', v, k) == CommittedIn(s, v, k)
      ensures CommittedIn(s, v, h) ==> CommittedIn(s', v, h)
    {
    }
  }

  /** An accepted commit by an upload in progress is backed by objects that are still there: the
      attempt row has pinned the hash since before the PUTs were made. */
  lemma CommitDurable(cfg: Config, s: State, u: UploadId, seen: UploadStatus, h: Hash, size: int,
                      etags: map<NodeId, string>)
    requires AcksHeld(s) && Running(s, u) && CommitAccepted(cfg, s, u, seen, h, size, etags) && Truthful(s, u, h, etags)
    ensures Durable(cfg, DoCommit(cfg, s, u, seen, h, size, etags), h)
  {
    var s' := DoCommit(cfg, s, u, seen, h, size, etags);
    assert etags.Keys <= Holders(s, h);
    SubsetSize(etags.Keys, Replicas(s', h));
    assert |etags.Keys| == |etags|;
  }

  lemma CheckKeeps(cfg: Config, s: State, u: UploadId, hashes: seq<Hash>)
    requires SafeInv(cfg, s)
    ensures SafeInv(cfg, s.(chunks := Touch(s, u, hashes)))
  {
    var s' := s.(chunks := Touch(s, u, hashes));
    CheckClock(cfg, s, u, hashes);
    SameReferences(cfg, s, s');
    SameUploads(s, s', {});
    CarryingKeeps(cfg, s, s', {});
  }

  lemma BeginKeeps(cfg: Config, s: State, c: CallId, u: UploadId, org: OrgId, hashes: seq<Hash>)
    requires SafeInv(cfg, s)
    ensures SafeInv(cfg, DoBegin(s, c, u, org, hashes))
  {
    var t := s.(chunks := Touch(s, u, hashes));
    var s' := DoBegin(s, c, u, org, hashes);
    CheckKeeps(cfg, s, u, hashes);
    BeginClock(cfg, s, c, u, org, hashes);
    if s' != s && s' != t {
      BeginBacked(cfg, s, c, u, org, hashes);
      SameUploads(t, s', {});
      CarryingKeeps(cfg, t, s', {});
    }
  }

  lemma BeginBacked(cfg: Config, s: State, c: CallId, u: UploadId, org: OrgId, hashes: seq<Hash>)
    requires LiveDurable(cfg, s)
    requires c !in s.completions && c in DoBegin(s, c, u, org, hashes).completions
    ensures Backed(cfg, DoBegin(s, c, u, org, hashes), Checked(u, hashes, s.now))
  {
    var s' := DoBegin(s, c, u, org, hashes);
    forall h | h in hashes ensures CommittedIn(s', u, h) || Leased(cfg, s', h, s.now) {
      assert PresentFor(s, org, u, h);
      if !CommittedIn(s, u, h) {
        assert Replicas(s', h) == Replicas(s, h);
      }
    }
  }

  lemma CreateKeeps(cfg: Config, s: State, c: CallId, v: VersionId)
    requires SafeInv(cfg, s)
    requires c in s.completions && s.completions[c].Checked? && v !in s.versions && InWindow(cfg, s, s.completions[c])
    ensures SafeInv(cfg, DoCreate(s, c, v))
  {
    var s' := DoCreate(s, c, v);
    CreateClock(cfg, s, c, v);
    CreateDurable(cfg, s, s', s.completions[c]);
    CreateReferences(cfg, s, c, v);
    QuietKeeps(cfg, s, s');
  }

  /** An insert that fails on the foreign key only ends its call. */
  lemma RefusedCreateKeeps(cfg: Config, s: State, c: CallId, v: VersionId)
    requires SafeInv(cfg, s) && !Inserts(s, c, v)
    ensures SafeInv(cfg, DoCreate(s, c, v))
  {
    CreateClock(cfg, s, c, v);
    assert ReferencesCarried(cfg, s, DoCreate(s, c, v));
    QuietKeeps(cfg, s, DoCreate(s, c, v));
  }

  lemma CreateReferences(cfg: Config, s: State, c: CallId, v: VersionId)
    requires c in s.completions && s.completions[c].Checked? && v !in s.versions ==>
      AllDurable(cfg, DoCreate(s, c, v), s.completions[c].order)
    ensures ReferencesCarried(cfg, s, DoCreate(s, c, v))
  {
  }

  /** Inside its window a completion finds every chunk it lists durable. */
  lemma CreateDurable(cfg: Config, s: State, s': State, call: Completion)
    requires SafeInv(cfg, s) && call.Checked? && call in s.completions.Values && InWindow(cfg, s, call)
    requires s'.chunks == s.chunks && s'.objects == s.objects
    ensures AllDurable(cfg, s', call.order)
  {
    forall h | h in call.order ensures Durable(cfg, s', h) {
      assert Backed(cfg, s, call);
      assert Replicas(s', h) == Replicas(s, h);
    }
  }

  lemma FinishKeeps(cfg: Config, s: State, c: CallId)
    requires SafeInv(cfg, s)
    ensures SafeInv(cfg, DoFinish(s, c))
  {
    hide Grows, LiveCarried, UploadsCarried, ReferencesCarried, ClockInv, Safe, AcksHeld, LiveDurable,
      CompletionsBacked;
    var s' := DoFinish(s, c);
    FinishClock(cfg, s, c);
    FinishUploads(s, c);
    FinishReferences(cfg, s, c);
    SameChunks(s, s', {});
    CarryingKeeps(cfg, s, s', {});
  }

  lemma FinishUploads(s: State, c: CallId)
    ensures UploadsCarried(s, DoFinish(s, c), {})
  {
  }

  lemma FinishReferences(cfg: Config, s: State, c: CallId)
    ensures ReferencesCarried(cfg, s, DoFinish(s, c))
  {
  }

  lemma PurgeKeeps(cfg: Config, s: State, vs: set<VersionId>, us: set<UploadId>)
    requires SafeInv(cfg, s)
    ensures SafeInv(cfg, Step(cfg, s, Purge(vs, us)))
  {
    var s' := Step(cfg, s, Purge(vs, us));
    StepKeepsClock(cfg, s, Purge(vs, us));
    forall u | Running(s', u) ensures Running(s, u) && s'.uploads[u] == s.uploads[u] {}
    SameChunks(s, s', {});
    CarryingKeeps(cfg, s, s', {});
  }

  lemma MarkKeeps(cfg: Config, s: State)
    requires SafeInv(cfg, s)
    ensures SafeInv(cfg, DoMark(cfg, s))
  {
    var s' := DoMark(cfg, s);
    MarkClock(cfg, s);
    SameReferences(cfg, s, s');
    SameUploads(s, s', {});
    MarkGrows(cfg, s);
    CarryingKeeps(cfg, s, s', {});
  }

  lemma MarkGrows(cfg: Config, s: State)
    ensures Grows(s, DoMark(cfg, s)) && LiveCarried(s, DoMark(cfg, s), {})
  {
  }

  lemma RepairGrows(s: State, h: Hash, node: NodeId, outcome: RepairOutcome)
    ensures Grows(s, DoRepair(s, h, node, outcome)) && LiveCarried(s, DoRepair(s, h, node, outcome), {})
  {
  }

  lemma RepairKeeps(cfg: Config, s: State, h: Hash, node: NodeId, outcome: RepairOutcome)
    requires SafeInv(cfg, s)
    ensures SafeInv(cfg, DoRepair(s, h, node, outcome))
  {
    var s' := DoRepair(s, h, node, outcome);
    RepairClock(cfg, s, h, node, outcome);
    SameReferences(cfg, s, s');
    SameUploads(s, s', {});
    RepairGrows(s, h, node, outcome);
    CarryingKeeps(cfg, s, s', {});
  }

  /** The heart of the matter. What a reap destroys is a doomed chunk that no version lists, no
      session in progress has an attempt for, and, since its lease is two grace windows old, no
      completion in its window relies on. */
  lemma ReapKeeps(cfg: Config, s: State, h: Hash, removed: set<NodeId>, ok: bool)
    requires SafeInv(cfg, s)
    ensures SafeInv(cfg, DoReap(s, h, removed, ok))
  {
    var s' := DoReap(s, h, removed, ok);
    ReapClock(cfg, s, h, removed, ok);
    ReapShape(s, h, removed, ok);
    if s.sweep.Sweeping? && h in s.sweep.candidates && Reapable(s, h) {
      ReapSpares(cfg, s, s', h);
    } else {
      SameReferences(cfg, s, s');
      SameUploads(s, s', {});
      CarryingKeeps(cfg, s, s', {});
    }
  }

  /** Only h is touched. */
  ghost predicate OnlyLost(s: State, s': State, h: Hash) {
    && (forall k :: k in s'.chunks ==> k in s.chunks && s'.chunks[k] == s.chunks[k])
    && (forall k :: k in s.chunks && k != h ==> k in s'.chunks)
    && (forall k :: k != h ==> Holders(s, k) == Holders(s', k))
    && s'.now == s.now && s'.uploads == s.uploads && s'.versions == s.versions && s'.completions == s.completions
  }

  lemma ReapShape(s: State, h: Hash, removed: set<NodeId>, ok: bool)
    ensures OnlyLost(s, DoReap(s, h, removed, ok), h)
  {
  }

  lemma ReapSpares(cfg: Config, s: State, s': State, h: Hash)
    requires SafeInv(cfg, s) && ClockInv(cfg, s') && Reapable(s, h)
    requires s.sweep.Sweeping? && h in s.sweep.candidates
    requires OnlyLost(s, s', h)
    ensures SafeInv(cfg, s')
  {
    forall k | k != h && Durable(cfg, s, k) ensures Durable(cfg, s', k) {
      assert Replicas(s', k) == Replicas(s, k);
    }
    forall u, k | Running(s', u) && k in s'.uploads[u].attempts
      ensures k != h && s'.uploads[u].attempts[k].acked <= Holders(s', k)
    {
      assert Running(s, u) && s.uploads[u].attempts[k].acked <= Holders(s, k);
    }
    forall u, k | Running(s', u) && CommittedIn(s', u, k) ensures Durable(cfg, s', k) {
      assert Running(s, u) && CommittedIn(s, u, k) && k in s'.uploads[u].attempts;
    }
    assert LiveDurable(cfg, s');
    forall c | c in s'.completions && s'.completions[c].Checked? && InWindow(cfg, s', s'.completions[c])
      ensures Backed(cfg, s', s'.completions[c])
    {
      assert InWindow(cfg, s, s.completions[c]);
    }
  }

  lemma StepKeepsSafe(cfg: Config, tests: Tests, s: State, a: Action)
    requires SafeInv(cfg, s) && Enough(cfg, tests) && Prompt(cfg, tests, s, a)
    ensures SafeInv(cfg, Step(cfg, s, a))
  {
    match a
    case CreateUpload(u, org) => CreateUploadKeeps(cfg, s, u, org);
    case InitChunk(u, seen, h) => InitKeeps(cfg, s, u, seen, h);
    case Put(u, h, node) => PutKeeps(cfg, s, u, h, node);
    case CommitChunk(u, seen, h, size, etags) =>
      if CommitAccepted(cfg, s, u, seen, h, size, etags) { CommitKeeps(cfg, s, u, seen, h, size, etags); }
    case CheckChunks(u, _, hashes) => CheckKeeps(cfg, s, u, hashes);
    case BeginComplete(c, u, org, hashes) => BeginKeeps(cfg, s, c, u, org, hashes);
    case CreateVersion(c, v) =>
      if Inserts(s, c, v) { CreateKeeps(cfg, s, c, v); } else { RefusedCreateKeeps(cfg, s, c, v); }
    case FinishComplete(c) => FinishKeeps(cfg, s, c);
    case Purge(vs, us) => PurgeKeeps(cfg, s, vs, us);
    case Mark => MarkKeeps(cfg, s);
    case Reap(h, removed, ok) => ReapKeeps(cfg, s, h, removed, ok);
    case Repair(h, node, outcome) => RepairKeeps(cfg, s, h, node, outcome);
    case AbandonCall(c) => AbandonKeeps(cfg, s, c);
    case _ => OtherKeeps(cfg, s, a);
  }

  lemma AbandonKeeps(cfg: Config, s: State, c: CallId)
    requires SafeInv(cfg, s)
    ensures SafeInv(cfg, Step(cfg, s, AbandonCall(c)))
  {
    var s' := Step(cfg, s, AbandonCall(c));
    StepKeepsClock(cfg, s, AbandonCall(c));
    assert ReferencesCarried(cfg, s, s');
    QuietKeeps(cfg, s, s');
  }

  /** A step that touches no row of chunks or uploads and no object. */
  lemma QuietKeeps(cfg: Config, s: State, s': State)
    requires SafeInv(cfg, s) && ClockInv(cfg, s') && s.now <= s'.now
    requires s'.chunks == s.chunks && s'.objects == s.objects && s'.uploads == s.uploads
    requires ReferencesCarried(cfg, s, s')
    ensures SafeInv(cfg, s')
  {
    hide Grows, LiveCarried, UploadsCarried, ReferencesCarried, ClockInv, Safe, AcksHeld, LiveDurable,
      CompletionsBacked;
    SameUploads(s, s', {});
    SameChunks(s, s', {});
    CarryingKeeps(cfg, s, s', {});
  }

  lemma OtherKeeps(cfg: Config, s: State, a: Action)
    requires SafeInv(cfg, s)
    requires a.Scan? || a.EndSweep? || a.NodeDown? || a.NodeUp? || a.Tick?
    ensures SafeInv(cfg, Step(cfg, s, a))
  {
    hide Grows, LiveCarried, UploadsCarried, ReferencesCarried, ClockInv, Safe, AcksHeld, LiveDurable,
      CompletionsBacked;
    StepKeepsClock(cfg, s, a);
    SameReferences(cfg, s, Step(cfg, s, a));
    QuietKeeps(cfg, s, Step(cfg, s, a));
  }

  // ---------------------------------------------------------------- whole runs

  lemma {:induction false} ExecKeepsSafe(cfg: Config, tests: Tests, s: State, acts: seq<Action>)
    requires SafeInv(cfg, s) && Enough(cfg, tests) && PromptRun(cfg, tests, s, acts)
    ensures SafeInv(cfg, Exec(cfg, s, acts))
    decreases |acts|
  {
    if acts != [] {
      StepKeepsSafe(cfg, tests, s, acts[0]);
      ExecKeepsSafe(cfg, tests, Step(cfg, s, acts[0]), acts[1..]);
    }
  }

  /** The main theorem. Whatever the sessions, the purges, the sweeper, the repairs and the nodes
      do, in any order: every chunk listed by a file version, and every chunk committed by an
      upload still in progress, has its row and at least max(1, W) replicas really there. */
  lemma NoPromisedChunkIsLost(cfg: Config, tests: Tests, acts: seq<Action>)
    requires Enough(cfg, tests) && PromptRun(cfg, tests, Empty, acts)
    ensures Safe(cfg, Exec(cfg, Empty, acts))
  {
    ExecKeepsSafe(cfg, tests, Empty, acts);
  }

  /** In its window a completion never fails on the foreign key: the version is inserted. */
  lemma PromptCreateSucceeds(cfg: Config, tests: Tests, acts: seq<Action>, c: CallId, v: VersionId)
    requires Enough(cfg, tests) && PromptRun(cfg, tests, Empty, acts)
    requires var s := Exec(cfg, Empty, acts);
      c in s.completions && s.completions[c].Checked? && InWindow(cfg, s, s.completions[c]) && v !in s.versions
    ensures var s := Exec(cfg, Empty, acts);
      v in DoCreate(s, c, v).versions && DoCreate(s, c, v).versions[v] == s.completions[c].order
  {
    var s := Exec(cfg, Empty, acts);
    ExecKeepsSafe(cfg, tests, Empty, acts);
    CreateDurable(cfg, s, s, s.completions[c]);
  }

  /** Timing, on every run whatever: the sweeper destroys nothing within two grace windows of the
      last renewal of its lease. */
  lemma NothingReapedEarly(cfg: Config, acts: seq<Action>, h: Hash, removed: set<NodeId>, ok: bool)
    requires var s := Exec(cfg, Empty, acts);
      var s' := DoReap(s, h, removed, ok);
      h in s.chunks && (s'.chunks != s.chunks || s'.objects != s.objects)
    ensures var s := Exec(cfg, Empty, acts); s.now - s.chunks[h].lastSeen > 2 * cfg.grace
  {
    ExecKeepsClock(cfg, Empty, acts);
  }
}
