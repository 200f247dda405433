/**
 Why the tests of ChunkSafety are there, and that they are exact: for each one there is a run from the
 empty store that passes all the others and loses the bytes of a chunk a file version lists.
 */
module ChunkRaces {
  import opened Entities
  import opened ChunkState
  import opened ChunkSafety

  // ---------------------------------------------------------------- losing a chunk, from where it can happen

  /** h is doomed, old enough to be swept, and nothing the re-check looks at protects it. */
  ghost predicate Due(cfg: Config, s: State, h: Hash) {
    s.sweep == Idle && Reapable(s, h) && s.chunks[h].gc.since < s.now - cfg.grace
  }

  lemma ScanFinds(cfg: Config, s: State, h: Hash)
    requires Due(cfg, s, h)
    ensures var t := Step(cfg, s, Scan);
      t == s.(sweep := t.sweep) && t.sweep.Sweeping? && h in t.sweep.candidates && Reapable(t, h)
  {
    var t := Step(cfg, s, Scan);
    assert Referenced(t, h) == Referenced(s, h);
    assert Pinned(t, h) == Pinned(s, h);
  }

  /** A completion that checked h and inserts its version only after the sweeper has begun on h: the
      foreign key still holds, the version lists h, and no replica is left. */
  lemma LateCreateLosesBytes(cfg: Config, s: State, c: CallId, v: VersionId, h: Hash)
    requires Due(cfg, s, h) && s.down == {}
    requires c in s.completions && s.completions[c].Checked? && s.completions[c].order == [h] && v !in s.versions
    ensures var t := Step(cfg, Step(cfg, s, Scan), Reap(h, s.chunks[h].locations.Keys, false));
      && t == s.(sweep := t.sweep, objects := t.objects)
      && Inserts(t, c, v) && !Safe(cfg, Step(cfg, t, CreateVersion(c, v)))
  {
    var nodes := s.chunks[h].locations.Keys;
    ScanFinds(cfg, s, h);
    var t := Step(cfg, Step(cfg, s, Scan), Reap(h, nodes, false));
    assert t.chunks == s.chunks && Holders(t, h) == Holders(s, h) - nodes;
    var s' := Step(cfg, t, CreateVersion(c, v));
    assert Replicas(s', h) == {};
    assert v in s'.versions && h in s'.versions[v] && !Durable(cfg, s', h);
  }

  /** The dedup check tells org that it has h. */
  predicate Claimable(s: State, org: OrgId, h: Hash) {
    h in s.chunks && s.chunks[h].gc == Live && (org, h) in s.proofs
  }

  /** A commit whose snapshot of the upload is stale: the upload has completed, so its attempt no
      longer pins h, the sweeper reaps h with the objects just PUT, and the commit then brings the
      row back to life with nothing behind it. From then on the dedup check answers "present". */
  lemma StaleCommitLosesBytes(cfg: Config, s: State, u: UploadId, h: Hash, size: int, etags: map<NodeId, string>)
    requires Due(cfg, s, h) && s.down == {}
    requires CommitAccepted(cfg, s, u, InProgress, h, size, etags) && Truthful(s, u, h, etags)
    requires etags.Keys <= s.chunks[h].locations.Keys
    ensures var s' := Step(cfg, Step(cfg, Step(cfg, s, Scan), Reap(h, {}, true)),
      CommitChunk(u, InProgress, h, size, etags));
      && Claimable(s', s.uploads[u].org, h) && Replicas(s', h) == {}
      && s'.versions == s.versions && s'.completions == s.completions && s'.issued == s.issued && s'.now == s.now
  {
    ScanFinds(cfg, s, h);
    var t := Step(cfg, Step(cfg, s, Scan), Reap(h, {}, true));
    assert h !in t.chunks && t.uploads == s.uploads && Holders(t, h) == Holders(s, h) - s.chunks[h].locations.Keys;
    assert t == s.(sweep := t.sweep, chunks := t.chunks, objects := t.objects);
    hide DoReap, DoScan;
    CommitOnNothing(cfg, t, u, h, size, etags);
  }

  lemma CommitOnNothing(cfg: Config, s: State, u: UploadId, h: Hash, size: int, etags: map<NodeId, string>)
    requires CommitAccepted(cfg, s, u, InProgress, h, size, etags) && Truthful(s, u, h, etags)
    requires h !in s.chunks && Holders(s, h) !! etags.Keys
    ensures var s' := DoCommit(cfg, s, u, InProgress, h, size, etags);
      && Claimable(s', s.uploads[u].org, h) && Replicas(s', h) == {}
      && s'.versions == s.versions && s'.completions == s.completions && s'.issued == s.issued && s'.now == s.now
  {
    var s' := DoCommit(cfg, s, u, InProgress, h, size, etags);
    assert s'.chunks[h].locations.Keys == etags.Keys;
    assert Replicas(s', h) == {};
  }

  /** A prompt completion of a fresh upload then lists the lost chunk. */
  lemma ClaimedWithoutBytes(cfg: Config, s: State, u: UploadId, org: OrgId, c: CallId, v: VersionId, h: Hash)
    requires Claimable(s, org, h) && Replicas(s, h) == {}
    requires u !in s.issued && c !in s.completions && v !in s.versions
    ensures var t := Step(cfg, Step(cfg, s, CreateUpload(u, org)), BeginComplete(c, u, org, [h]));
      && Inserts(t, c, v) && t.completions[c] == Checked(u, [h], t.now) && Running(t, u)
      && !Safe(cfg, Step(cfg, t, CreateVersion(c, v)))
  {
    var s1 := Step(cfg, s, CreateUpload(u, org));
    assert PresentFor(s1, org, u, h);
    var t := Step(cfg, s1, BeginComplete(c, u, org, [h]));
    assert t.chunks[h] == s.chunks[h].(lastSeen := s.now);
    var s' := Step(cfg, t, CreateVersion(c, v));
    assert Replicas(s', h) == Replicas(s, h);
    assert v in s'.versions && h in s'.versions[v] && !Durable(cfg, s', h);
  }

  // ---------------------------------------------------------------- runs that pass the tests

  /** Some run from the empty store that passes the tests ends in s. */
  ghost predicate Reachable(cfg: Config, tests: Tests, s: State) {
    exists acts :: PromptRun(cfg, tests, Empty, acts) && Exec(cfg, Empty, acts) == s
  }

  lemma {:induction false} PromptSnoc(cfg: Config, tests: Tests, s: State, acts: seq<Action>, a: Action)
    requires PromptRun(cfg, tests, s, acts) && Prompt(cfg, tests, Exec(cfg, s, acts), a)
    ensures PromptRun(cfg, tests, s, acts + [a])
    decreases |acts|
  {
    if acts != [] {
      assert (acts + [a])[1..] == acts[1..] + [a];
      PromptSnoc(cfg, tests, Step(cfg, s, acts[0]), acts[1..], a);
    }
  }

  lemma ReachEmpty(cfg: Config, tests: Tests)
    ensures Reachable(cfg, tests, Empty)
  {
    assert PromptRun(cfg, tests, Empty, []) && Exec(cfg, Empty, []) == Empty;
  }

  lemma Reach(cfg: Config, tests: Tests, s: State, a: Action)
    requires Reachable(cfg, tests, s) && Prompt(cfg, tests, s, a)
    ensures Reachable(cfg, tests, Step(cfg, s, a))
  {
    hide Step, Prompt;
    var acts :| PromptRun(cfg, tests, Empty, acts) && Exec(cfg, Empty, acts) == s;
    PromptSnoc(cfg, tests, Empty, acts, a);
    ExecSnoc(cfg, Empty, acts, a);
  }

  /** A reachable unsafe state means that the tests are not enough. */
  lemma UnsafeRun(cfg: Config, tests: Tests, s: State)
    requires Reachable(cfg, tests, s) && !Safe(cfg, s)
    ensures exists acts :: PromptRun(cfg, tests, Empty, acts) && !Safe(cfg, Exec(cfg, Empty, acts))
  {
    hide Safe, PromptRun, Exec;
  }

  // ---------------------------------------------------------------- the seed: one chunk, properly stored

  const ORG := OrgId("o")
  const H := Hash("h")
  const FIRST := UploadId("1")
  const SECOND := UploadId("22")
  const THIRD := UploadId("333")

  /** k different nodes. */
  function Node(i: nat): NodeId { NodeId(seq(i, _ => 'n')) }

  function Names(k: nat): set<NodeId> { set i | 0 <= i < k :: Node(i) }

  lemma {:induction false} LaterNodeIsNew(k: nat)
    ensures Node(k) !in Names(k)
  {
    assert |Node(k).name| == k;
    forall i: nat | i < k ensures Node(i) != Node(k) {
      assert |Node(i).name| == i;
    }
  }

  lemma {:induction false} NamesCount(k: nat)
    ensures |Names(k)| == k
  {
    if k > 0 {
      NamesCount(k - 1);
      LaterNodeIsNew(k - 1);
      assert Names(k) == Names(k - 1) + {Node(k - 1)};
    }
  }

  function Etags(nodes: set<NodeId>): map<NodeId, string> { map n | n in nodes :: "e" }

  function Everywhere(nodes: set<NodeId>): map<NodeId, LocationStatus> { map n | n in nodes :: LocationCommitted }

  /** s after u has put H on all the nodes. */
  function WithPuts(s: State, u: UploadId, nodes: set<NodeId>): State
    requires u in s.uploads && H in s.uploads[u].attempts
  {
    var at := s.uploads[u].attempts[H];
    s.(objects := s.objects[H := Holders(s, H) + nodes],
      uploads := WithAttempt(s, u, H, at.(acked := at.acked + nodes)))
  }

  lemma OneMorePut(cfg: Config, s: State, u: UploadId, nodes: set<NodeId>, node: NodeId)
    requires u in s.uploads && H in s.uploads[u].attempts && s.down == {}
    ensures Step(cfg, WithPuts(s, u, nodes), Put(u, H, node)) == WithPuts(s, u, nodes + {node})
    ensures Step(cfg, s, Put(u, H, node)) == WithPuts(s, u, {node})
  {
    var at, w := s.uploads[u].attempts[H], WithPuts(s, u, nodes);
    var r := WithPuts(s, u, nodes + {node});
    assert at.acked + nodes + {node} == at.acked + (nodes + {node});
    assert Holders(s, H) + nodes + {node} == Holders(s, H) + (nodes + {node});
    assert w.objects[H := Holders(w, H) + {node}] == r.objects;
    var wat := w.uploads[u].attempts[H];
    assert w.uploads[u].attempts[H := wat.(acked := wat.acked + {node})] == r.uploads[u].attempts;
    assert WithAttempt(w, u, H, wat.(acked := wat.acked + {node})) == r.uploads;
  }

  lemma {:induction false} ReachPuts(cfg: Config, tests: Tests, s: State, u: UploadId, k: nat)
    requires Reachable(cfg, tests, s) && u in s.uploads && H in s.uploads[u].attempts && s.down == {} && k > 0
    ensures Reachable(cfg, tests, WithPuts(s, u, Names(k)))
  {
    hide Reachable, Step, WithPuts;
    OneMorePut(cfg, s, u, Names(k - 1), Node(k - 1));
    assert Names(k) == Names(k - 1) + {Node(k - 1)};
    if k == 1 {
      assert Names(1) == {Node(0)};
      Reach(cfg, tests, s, Put(u, H, Node(0)));
    } else {
      ReachPuts(cfg, tests, s, u, k - 1);
      Reach(cfg, tests, WithPuts(s, u, Names(k - 1)), Put(u, H, Node(k - 1)));
    }
  }

  function Replicated(cfg: Config): set<NodeId> { Names(Required(cfg)) }

  /** H as it is stored, unless it is doomed. */
  function StoredChunk(cfg: Config): Chunk { Chunk(0, 0, Live, Everywhere(Replicated(cfg))) }

  function OpenUpload(attempts: map<Hash, Attempt>): Upload { Upload(ORG, 0, InProgress, attempts) }

  /** The first upload has stored H on as many nodes as are required and committed it. */
  function Seed(cfg: Config): State {
    Empty.(chunks := map[H := StoredChunk(cfg)], objects := map[H := Replicated(cfg)],
           uploads := map[FIRST := OpenUpload(map[H := Attempt(Committed, Replicated(cfg))])],
           issued := {FIRST}, proofs := {(ORG, H)})
  }

  lemma EtagsFit(cfg: Config, nodes: set<NodeId>)
    requires |nodes| == Required(cfg)
    ensures Etags(nodes).Keys == nodes && EtagsAgree(Etags(nodes))
    ensures |Etags(nodes)| != 0 && !(cfg.writeQuorum > 0 && |Etags(nodes)| < cfg.writeQuorum)
  {
    assert Etags(nodes).Keys == nodes && |Etags(nodes).Keys| == |Etags(nodes)|;
  }

  lemma CommitSeeds(cfg: Config, s: State)
    requires s == Empty.(objects := map[H := Replicated(cfg)], issued := {FIRST},
                         uploads := map[FIRST := OpenUpload(map[H := Attempt(Presigned, Replicated(cfg))])])
    ensures DoCommit(cfg, s, FIRST, InProgress, H, 0, Etags(Replicated(cfg))) == Seed(cfg)
  {
    var nodes := Replicated(cfg);
    ReplicatedAre(cfg);
    EtagsFit(cfg, nodes);
    hide Replicated, Etags;
    var t := DoCommit(cfg, s, FIRST, InProgress, H, 0, Etags(nodes));
    assert CommitAccepted(cfg, s, FIRST, InProgress, H, 0, Etags(nodes));
    assert t.chunks[H].locations == Everywhere(nodes);
    assert t.chunks == Seed(cfg).chunks;
    assert t.uploads[FIRST].attempts == Seed(cfg).uploads[FIRST].attempts;
    assert t.uploads == Seed(cfg).uploads;
    assert t.proofs == Seed(cfg).proofs;
  }

  lemma SeedReachable(cfg: Config, tests: Tests)
    ensures Reachable(cfg, tests, Seed(cfg))
  {
    hide Replicated, Etags, Reachable;
    var nodes := Replicated(cfg);
    var s1 := Empty.(uploads := map[FIRST := OpenUpload(map[])], issued := {FIRST});
    assert Step(cfg, Empty, CreateUpload(FIRST, ORG)) == s1;
    var s2 := s1.(uploads := map[FIRST := OpenUpload(map[H := Attempt(Presigned, {})])]);
    assert Step(cfg, s1, InitChunk(FIRST, InProgress, H)).uploads == s2.uploads;
    PutsSeed(s2, nodes);
    var s3 := WithPuts(s2, FIRST, nodes);
    CommitSeeds(cfg, s3);
    ReachEmpty(cfg, tests);
    Reach(cfg, tests, Empty, CreateUpload(FIRST, ORG));
    Reach(cfg, tests, s1, InitChunk(FIRST, InProgress, H));
    assert nodes == Names(Required(cfg)) by { ReplicatedAre(cfg); }
    ReachPuts(cfg, tests, s2, FIRST, Required(cfg));
    Reach(cfg, tests, s3, CommitChunk(FIRST, InProgress, H, 0, Etags(nodes)));
  }

  lemma ReplicatedAre(cfg: Config)
    ensures Replicated(cfg) == Names(Required(cfg)) && |Replicated(cfg)| == Required(cfg)
  {
    NamesCount(Required(cfg));
  }

  lemma PutsSeed(s: State, nodes: set<NodeId>)
    requires s == Empty.(uploads := map[FIRST := OpenUpload(map[H := Attempt(Presigned, {})])], issued := {FIRST})
    ensures WithPuts(s, FIRST, nodes) ==
      Empty.(objects := map[H := nodes], issued := {FIRST},
             uploads := map[FIRST := OpenUpload(map[H := Attempt(Presigned, nodes)])])
  {
    assert {} + nodes == nodes;
    assert s.uploads[FIRST].attempts[H := Attempt(Presigned, nodes)] == map[H := Attempt(Presigned, nodes)];
    assert WithPuts(s, FIRST, nodes).objects == map[H := nodes];
  }

  // ---------------------------------------------------------------- dooming it

  /** No open upload keeps the mark phase away from H at the given time. */
  predicate UnpinnedAt(s: State, time: int) {
    forall u :: u in s.uploads && Running(s, u) && H in s.uploads[u].attempts ==>
      s.uploads[u].createdAt <= time - UPLOAD_PIN_TTL
  }

  predicate Markworthy(s: State) {
    s.sweep == Idle && s.versions == map[] && s.chunks.Keys == {H} && s.chunks[H].gc == Live &&
      s.chunks[H].lastSeen <= s.now
  }

  /** s after a while, a mark, and one more grace window. */
  function LaterDoomed(cfg: Config, s: State, wait: nat): State
    requires H in s.chunks
  {
    s.(now := s.now + wait + cfg.grace + 1, chunks := map[H := s.chunks[H].(gc := Doomed(s.now + wait))])
  }

  lemma MarkDooms(cfg: Config, s: State, wait: nat)
    requires Markworthy(s) && wait > cfg.grace && UnpinnedAt(s, s.now + wait)
    ensures Step(cfg, Step(cfg, Step(cfg, s, Tick(wait)), Mark), Tick(cfg.grace + 1)) == LaterDoomed(cfg, s, wait)
  {
    var s1 := Step(cfg, s, Tick(wait));
    assert !RecentlyPinned(s1, H) && !Referenced(s1, H);
    assert Markable(cfg, s1, H);
    assert DoMark(cfg, s1).chunks == map[H := s.chunks[H].(gc := Doomed(s.now + wait))];
  }

  lemma Doom(cfg: Config, tests: Tests, s: State, wait: nat)
    requires Reachable(cfg, tests, s) && Markworthy(s) && wait > cfg.grace && UnpinnedAt(s, s.now + wait)
    ensures Reachable(cfg, tests, LaterDoomed(cfg, s, wait))
  {
    MarkDooms(cfg, s, wait);
    hide Reachable, Step, Markworthy;
    Reach(cfg, tests, s, Tick(wait));
    Reach(cfg, tests, Step(cfg, s, Tick(wait)), Mark);
    Reach(cfg, tests, Step(cfg, Step(cfg, s, Tick(wait)), Mark), Tick(cfg.grace + 1));
  }

  const CALL := CallId(0)
  const RIVAL := CallId(1)
  const VERSION := VersionId("v")
  const DECOY := VersionId("vv")

  /** The last three steps of a run that loses a chunk to a late insert. */
  lemma LateEnd(cfg: Config, tests: Tests, s: State, c: CallId)
    requires Reachable(cfg, tests, s) && Due(cfg, s, H) && s.down == {} && VERSION !in s.versions
    requires c in s.completions && s.completions[c].Checked? && s.completions[c].order == [H]
    requires s.now <= s.completions[c].at + tests.window &&
      (tests.createRunning ==> Running(s, s.completions[c].upload))
    ensures exists acts :: PromptRun(cfg, tests, Empty, acts) && !Safe(cfg, Exec(cfg, Empty, acts))
  {
    LateCreateLosesBytes(cfg, s, c, VERSION, H);
    hide Reachable, Step, Due, Safe, PromptRun, Exec;
    var removal := Reap(H, s.chunks[H].locations.Keys, false);
    Reach(cfg, tests, s, Scan);
    Reach(cfg, tests, Step(cfg, s, Scan), removal);
    var t := Step(cfg, Step(cfg, s, Scan), removal);
    Reach(cfg, tests, t, CreateVersion(c, VERSION));
    UnsafeRun(cfg, tests, Step(cfg, t, CreateVersion(c, VERSION)));
  }

  // ---------------------------------------------------------------- a window that is too long

  /** A second upload has checked H, and nothing else happens. */
  function Waiting(cfg: Config): State {
    Seed(cfg).(uploads := map[SECOND := OpenUpload(map[])], issued := {FIRST, SECOND},
               completions := map[CALL := Checked(SECOND, [H], 0)])
  }

  lemma WaitingReachable(cfg: Config, tests: Tests)
    ensures Reachable(cfg, tests, Waiting(cfg))
  {
    hide Reachable, Replicated;
    var s0 := Seed(cfg);
    SeedReachable(cfg, tests);
    var s1 := s0.(uploads := map[]);
    assert s0.uploads - {FIRST} == map[];
    assert Step(cfg, s0, Purge({}, {FIRST})) == s1;
    Reach(cfg, tests, s0, Purge({}, {FIRST}));
    var s2 := s1.(uploads := map[SECOND := OpenUpload(map[])], issued := {FIRST, SECOND});
    assert Step(cfg, s1, CreateUpload(SECOND, ORG)) == s2;
    Reach(cfg, tests, s1, CreateUpload(SECOND, ORG));
    assert Touch(s2, SECOND, [H]) == s2.chunks;
    assert PresentFor(s2, ORG, SECOND, H);
    assert Step(cfg, s2, BeginComplete(CALL, SECOND, ORG, [H])) == Waiting(cfg);
    Reach(cfg, tests, s2, BeginComplete(CALL, SECOND, ORG, [H]));
  }

  /** One tick more than the window, and a completion that passes every test can lose a chunk. */
  lemma LongWindowLosesBytes(cfg: Config, tests: Tests)
    requires tests.window > Window(cfg)
    ensures exists acts :: PromptRun(cfg, tests, Empty, acts) && !Safe(cfg, Exec(cfg, Empty, acts))
  {
    hide Reachable, Replicated, PromptRun, Exec, Safe;
    WaitingReachable(cfg, tests);
    Doom(cfg, tests, Waiting(cfg), cfg.grace + 1);
    var s := LaterDoomed(cfg, Waiting(cfg), cfg.grace + 1);
    assert !Referenced(s, H) && !Pinned(s, H);
    LateEnd(cfg, tests, s, CALL);
  }

  // ---------------------------------------------------------------- an insert after the upload has completed

  /** H is doomed while only an old upload pins it, and the upload has completed through another call
      whose version is purged again. */
  function Overtaken(cfg: Config): State {
    var s := LaterDoomed(cfg, Seed(cfg), UPLOAD_PIN_TTL + cfg.grace + 1);
    s.(uploads := map[FIRST := s.uploads[FIRST].(status := Completed)],
      completions := map[CALL := Checked(FIRST, [H], s.now)])
  }

  lemma OvertakenReachable(cfg: Config, tests: Tests)
    ensures Reachable(cfg, tests, Overtaken(cfg))
  {
    hide Reachable, Replicated;
    SeedReachable(cfg, tests);
    Doom(cfg, tests, Seed(cfg), UPLOAD_PIN_TTL + cfg.grace + 1);
    var s0 := LaterDoomed(cfg, Seed(cfg), UPLOAD_PIN_TTL + cfg.grace + 1);
    var s1 := s0.(completions := map[CALL := Checked(FIRST, [H], s0.now)]);
    assert Touch(s0, FIRST, [H]) == s0.chunks && PresentFor(s0, ORG, FIRST, H);
    assert Step(cfg, s0, BeginComplete(CALL, FIRST, ORG, [H])) == s1;
    Reach(cfg, tests, s0, BeginComplete(CALL, FIRST, ORG, [H]));
    CompleteOnce(cfg, tests, s1, FIRST);
    assert s0.uploads[FIRST := s0.uploads[FIRST].(status := Completed)] == Overtaken(cfg).uploads;
  }

  /** An upload that has H completes through RIVAL, and the version is purged again. */
  lemma CompleteOnce(cfg: Config, tests: Tests, s: State, u: UploadId)
    requires Reachable(cfg, tests, s) && Running(s, u) && u in s.issued && H in s.chunks && s.versions == map[]
    requires RIVAL !in s.completions && PresentFor(s, ORG, u, H) && Touch(s, u, [H]) == s.chunks
    ensures Reachable(cfg, tests, s.(uploads := s.uploads[u := s.uploads[u].(status := Completed)]))
  {
    hide Reachable, Step;
    var s1 := s.(completions := s.completions[RIVAL := Checked(u, [H], s.now)]);
    var s2 := s.(versions := map[DECOY := [H]], completions := s.completions[RIVAL := Created(u)]);
    var s3 := s.(versions := map[DECOY := [H]], uploads := s.uploads[u := s.uploads[u].(status := Completed)]);
    RivalInserts(cfg, s, u);
    Reach(cfg, tests, s, BeginComplete(RIVAL, u, ORG, [H]));
    Reach(cfg, tests, s1, CreateVersion(RIVAL, DECOY));
    RivalFinishes(cfg, s, u);
    Reach(cfg, tests, s2, FinishComplete(RIVAL));
    Reach(cfg, tests, s3, Purge({DECOY}, {}));
  }

  lemma RivalInserts(cfg: Config, s: State, u: UploadId)
    requires u in s.issued && H in s.chunks && s.versions == map[]
    requires RIVAL !in s.completions && PresentFor(s, ORG, u, H) && Touch(s, u, [H]) == s.chunks
    ensures var s1 := s.(completions := s.completions[RIVAL := Checked(u, [H], s.now)]);
      && Step(cfg, s, BeginComplete(RIVAL, u, ORG, [H])) == s1
      && Step(cfg, s1, CreateVersion(RIVAL, DECOY)) ==
         s.(versions := map[DECOY := [H]], completions := s.completions[RIVAL := Created(u)])
  {
    hide Touch, PresentFor;
    var s1 := s.(completions := s.completions[RIVAL := Checked(u, [H], s.now)]);
    assert s1.completions[RIVAL := Created(u)] == s.completions[RIVAL := Created(u)];
  }

  lemma RivalFinishes(cfg: Config, s: State, u: UploadId)
    requires Running(s, u) && RIVAL !in s.completions && s.versions == map[]
    ensures var s2 := s.(versions := map[DECOY := [H]], completions := s.completions[RIVAL := Created(u)]);
      var s4 := s.(uploads := s.uploads[u := s.uploads[u].(status := Completed)]);
      && Step(cfg, s2, FinishComplete(RIVAL)) == s4.(versions := map[DECOY := [H]])
      && Step(cfg, s4.(versions := map[DECOY := [H]]), Purge({DECOY}, {})) == s4
  {
    var s2 := s.(versions := map[DECOY := [H]], completions := s.completions[RIVAL := Created(u)]);
    var s4 := s.(uploads := s.uploads[u := s.uploads[u].(status := Completed)]);
    assert s2.completions - {RIVAL} == s.completions;
    assert s4.uploads - {} == s4.uploads && map[DECOY := [H]] - {DECOY} == map[];
  }

  /** Without the test that the upload is in progress, an insert in the very instant of its check can
      lose a chunk. */
  lemma OvertakenCreateLosesBytes(cfg: Config, tests: Tests)
    requires !tests.createRunning
    ensures exists acts :: PromptRun(cfg, tests, Empty, acts) && !Safe(cfg, Exec(cfg, Empty, acts))
  {
    hide Reachable, Replicated, PromptRun, Exec, Safe;
    OvertakenReachable(cfg, tests);
    var s := Overtaken(cfg);
    assert !Referenced(s, H) && !Pinned(s, H);
    LateEnd(cfg, tests, s, CALL);
  }

  // ---------------------------------------------------------------- a commit after the upload has completed

  /** A second upload has put H again but not committed it, and has completed. */
  function Uncommitted(cfg: Config): State {
    Seed(cfg).(uploads := map[SECOND := Upload(ORG, 0, Completed, map[H := Attempt(Presigned, Replicated(cfg))])],
               issued := {FIRST, SECOND})
  }

  /** The second upload has put H on the nodes that have it already. */
  function PutAgain(cfg: Config): State {
    Seed(cfg).(uploads := Seed(cfg).uploads[SECOND := OpenUpload(map[H := Attempt(Presigned, Replicated(cfg))])],
      issued := {FIRST, SECOND})
  }

  lemma PutAgainReachable(cfg: Config, tests: Tests)
    ensures Reachable(cfg, tests, PutAgain(cfg))
  {
    hide Reachable, Replicated;
    var s0, nodes := Seed(cfg), Replicated(cfg);
    SeedReachable(cfg, tests);
    var s1 := s0.(uploads := s0.uploads[SECOND := OpenUpload(map[])], issued := {FIRST, SECOND});
    assert Step(cfg, s0, CreateUpload(SECOND, ORG)) == s1;
    Reach(cfg, tests, s0, CreateUpload(SECOND, ORG));
    var s2 := s1.(uploads := s0.uploads[SECOND := OpenUpload(map[H := Attempt(Presigned, {})])]);
    assert Step(cfg, s1, InitChunk(SECOND, InProgress, H)) == s2;
    Reach(cfg, tests, s1, InitChunk(SECOND, InProgress, H));
    ReplicatedAre(cfg);
    ReachPuts(cfg, tests, s2, SECOND, Required(cfg));
    PutsAgain(s2, nodes);
    assert s2.uploads[SECOND := OpenUpload(map[H := Attempt(Presigned, nodes)])] == PutAgain(cfg).uploads;
    assert WithPuts(s2, SECOND, nodes) == PutAgain(cfg);
  }

  lemma PutsAgain(s: State, nodes: set<NodeId>)
    requires SECOND in s.uploads && s.uploads[SECOND] == OpenUpload(map[H := Attempt(Presigned, {})])
    requires s.objects == map[H := nodes]
    ensures WithPuts(s, SECOND, nodes) ==
      s.(uploads := s.uploads[SECOND := OpenUpload(map[H := Attempt(Presigned, nodes)])])
  {
    assert {} + nodes == nodes && nodes + nodes == nodes;
    assert s.uploads[SECOND].attempts[H := Attempt(Presigned, nodes)] == map[H := Attempt(Presigned, nodes)];
    assert WithPuts(s, SECOND, nodes).objects == s.objects;
  }

  lemma UncommittedReachable(cfg: Config, tests: Tests)
    ensures Reachable(cfg, tests, Uncommitted(cfg))
  {
    hide Reachable, Replicated, LaterDoomed;
    var s := PutAgain(cfg);
    PutAgainReachable(cfg, tests);
    assert Touch(s, SECOND, [H]) == s.chunks && PresentFor(s, ORG, SECOND, H);
    CompleteOnce(cfg, tests, s, SECOND);
    var s' := s.(uploads := s.uploads[SECOND := s.uploads[SECOND].(status := Completed)]);
    assert s'.uploads - {FIRST} == Uncommitted(cfg).uploads;
    assert s'.versions - {} == s'.versions;
    assert Step(cfg, s', Purge({}, {FIRST})) == Uncommitted(cfg);
    Reach(cfg, tests, s', Purge({}, {FIRST}));
  }

  /** Without the test that the upload is in progress, a stale commit followed by a completion that
      passes every test lists a chunk nobody holds. */
  lemma StaleCommitRun(cfg: Config, tests: Tests)
    requires !tests.commitRunning
    ensures exists acts :: PromptRun(cfg, tests, Empty, acts) && !Safe(cfg, Exec(cfg, Empty, acts))
  {
    hide Reachable, PromptRun, Exec, Safe, Step, Due, CommitAccepted, Truthful, Claimable, Replicas;
    UncommittedReachable(cfg, tests);
    UncommittedIsStale(cfg);
    Doom(cfg, tests, Uncommitted(cfg), cfg.grace + 1);
    var s := LaterDoomed(cfg, Uncommitted(cfg), cfg.grace + 1);
    var etags := Etags(Replicated(cfg));
    StaleCommitLosesBytes(cfg, s, SECOND, H, 0, etags);
    Reach(cfg, tests, s, Scan);
    Reach(cfg, tests, Step(cfg, s, Scan), Reap(H, {}, true));
    var t := Step(cfg, Step(cfg, s, Scan), Reap(H, {}, true));
    var commit := CommitChunk(SECOND, InProgress, H, 0, etags);
    Reach(cfg, tests, t, commit);
    ClaimedRun(cfg, tests, Step(cfg, t, commit));
  }

  /** Doomed, H is due, and the stale commit would be accepted. */
  lemma UncommittedIsStale(cfg: Config)
    ensures Markworthy(Uncommitted(cfg)) && UnpinnedAt(Uncommitted(cfg), cfg.grace + 1)
    ensures var s, etags := LaterDoomed(cfg, Uncommitted(cfg), cfg.grace + 1), Etags(Replicated(cfg));
      && Due(cfg, s, H) && s.down == {} && etags.Keys <= s.chunks[H].locations.Keys
      && CommitAccepted(cfg, s, SECOND, InProgress, H, 0, etags) && Truthful(s, SECOND, H, etags)
  {
    hide Replicated, Etags;
    var s := LaterDoomed(cfg, Uncommitted(cfg), cfg.grace + 1);
    assert !Referenced(s, H) && !Pinned(s, H);
    ReplicatedAre(cfg);
    EtagsFit(cfg, Replicated(cfg));
  }

  lemma ClaimedRun(cfg: Config, tests: Tests, s: State)
    requires Reachable(cfg, tests, s) && Claimable(s, ORG, H) && Replicas(s, H) == {}
    requires THIRD !in s.issued && CALL !in s.completions && VERSION !in s.versions
    ensures exists acts :: PromptRun(cfg, tests, Empty, acts) && !Safe(cfg, Exec(cfg, Empty, acts))
  {
    ClaimedWithoutBytes(cfg, s, THIRD, ORG, CALL, VERSION, H);
    hide Reachable, Step, PromptRun, Exec, Safe, Claimable;
    var begin := BeginComplete(CALL, THIRD, ORG, [H]);
    Reach(cfg, tests, s, CreateUpload(THIRD, ORG));
    Reach(cfg, tests, Step(cfg, s, CreateUpload(THIRD, ORG)), begin);
    var t := Step(cfg, Step(cfg, s, CreateUpload(THIRD, ORG)), begin);
    Reach(cfg, tests, t, CreateVersion(CALL, VERSION));
    UnsafeRun(cfg, tests, Step(cfg, t, CreateVersion(CALL, VERSION)));
  }

  // ---------------------------------------------------------------- the tests are exact

  /** All runs that pass the tests are safe exactly when commits and inserts are tested for an upload
      in progress and the window is at most two grace windows and one tick. */
  lemma TestsAreExact(cfg: Config, tests: Tests)
    ensures (forall acts :: PromptRun(cfg, tests, Empty, acts) ==> Safe(cfg, Exec(cfg, Empty, acts))) <==>
      Enough(cfg, tests)
  {
    hide PromptRun, Exec, Safe;
    if Enough(cfg, tests) {
      forall acts | PromptRun(cfg, tests, Empty, acts) ensures Safe(cfg, Exec(cfg, Empty, acts)) {
        NoPromisedChunkIsLost(cfg, tests, acts);
      }
    } else if !tests.commitRunning {
      StaleCommitRun(cfg, tests);
    } else if !tests.createRunning {
      OvertakenCreateLosesBytes(cfg, tests);
    } else {
      LongWindowLosesBytes(cfg, tests);
    }
  }
}
