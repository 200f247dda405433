/**
 Garbage is collected: a chunk nobody lists, pins or has lately asked for goes, rows and objects, with
 the first sweep after a mark and a grace window, whatever else the store does in the meantime.
 */
module ChunkGarbage {
  import opened Entities
  import opened ChunkState
  import opened ChunkRaces

  /** The action neither uploads h anew nor starts a completion that lists it. Checks may ask for h,
      other reaps and repairs may touch it, and everything may happen to other chunks. */
  predicate LeavesAlone(a: Action, h: Hash) {
    match a
    case InitChunk(_, _, k) => k != h
    case Put(_, k, _) => k != h
    case CommitChunk(_, _, k, _, _) => k != h
    case BeginComplete(_, _, _, hashes) => h !in hashes
    case _ => true
  }

  predicate Unlisted(s: State, h: Hash) {
    forall c :: c in s.completions && s.completions[c].Checked? ==> h !in s.completions[c].order
  }

  /** h is doomed since the given time, or is gone with every object on the nodes. */
  predicate DoomedOrGone(s: State, h: Hash, since: int, nodes: set<NodeId>) {
    if h in s.chunks then s.chunks[h].gc == Doomed(since) && s.chunks[h].locations.Keys == nodes
    else Holders(s, h) !! nodes
  }

  ghost predicate Condemned(s: State, h: Hash, since: int, nodes: set<NodeId>) {
    Unlisted(s, h) && !Pinned(s, h) && !Referenced(s, h) && DoomedOrGone(s, h, since, nodes)
  }

  // ---------------------------------------------------------------- nothing saves it

  lemma StaysUnlisted(cfg: Config, s: State, a: Action, h: Hash)
    requires Unlisted(s, h) && LeavesAlone(a, h)
    ensures Unlisted(Step(cfg, s, a), h)
  {
    hide Touch, Committing, WithAttempt, DoMark, DoScan, DoReap, DoRepair;
  }

  lemma StaysUnpinned(cfg: Config, s: State, a: Action, h: Hash)
    requires !Pinned(s, h) && LeavesAlone(a, h)
    ensures !Pinned(Step(cfg, s, a), h)
  {
    hide Touch, Committing, DoMark, DoScan, DoReap, DoRepair;
  }

  lemma StaysUnreferenced(cfg: Config, s: State, a: Action, h: Hash)
    requires !Referenced(s, h) && Unlisted(s, h)
    ensures !Referenced(Step(cfg, s, a), h)
  {
    hide Touch, Committing, WithAttempt, DoMark, DoScan, DoReap, DoRepair;
  }

  lemma StaysDoomedOrGone(cfg: Config, s: State, a: Action, h: Hash, since: int, nodes: set<NodeId>)
    requires DoomedOrGone(s, h, since, nodes) && LeavesAlone(a, h)
    ensures DoomedOrGone(Step(cfg, s, a), h, since, nodes)
  {
    hide DoReap, DoRepair, DoMark, DoCommit, DoPut, DoBegin, Touch;
    match a
    case Reap(k, removed, ok) => ReapStaysDoomedOrGone(s, k, removed, ok, h, since, nodes);
    case Repair(k, node, outcome) => RepairStaysDoomedOrGone(s, k, node, outcome, h, since, nodes);
    case Mark => MarkStaysDoomedOrGone(cfg, s, h, since, nodes);
    case CommitChunk(_, _, _, _, _) => OtherChunkStaysDoomedOrGone(cfg, s, a, h, since, nodes);
    case Put(_, _, _) => OtherChunkStaysDoomedOrGone(cfg, s, a, h, since, nodes);
    case CheckChunks(_, _, _) => CheckStaysDoomedOrGone(cfg, s, a, h, since, nodes);
    case BeginComplete(_, _, _, _) => CheckStaysDoomedOrGone(cfg, s, a, h, since, nodes);
    case _ =>
  }

  lemma OtherChunkStaysDoomedOrGone(cfg: Config, s: State, a: Action, h: Hash, since: int, nodes: set<NodeId>)
    requires DoomedOrGone(s, h, since, nodes) && LeavesAlone(a, h) && (a.CommitChunk? || a.Put?)
    ensures DoomedOrGone(Step(cfg, s, a), h, since, nodes)
  {
  }

  /** A check renews no lease of a doomed chunk. */
  lemma CheckStaysDoomedOrGone(cfg: Config, s: State, a: Action, h: Hash, since: int, nodes: set<NodeId>)
    requires DoomedOrGone(s, h, since, nodes) && (a.CheckChunks? || a.BeginComplete?)
    ensures DoomedOrGone(Step(cfg, s, a), h, since, nodes)
  {
  }

  lemma MarkStaysDoomedOrGone(cfg: Config, s: State, h: Hash, since: int, nodes: set<NodeId>)
    requires DoomedOrGone(s, h, since, nodes)
    ensures DoomedOrGone(DoMark(cfg, s), h, since, nodes)
  {
  }

  lemma ReapStaysDoomedOrGone(s: State, k: Hash, removed: set<NodeId>, ok: bool, h: Hash, since: int,
                              nodes: set<NodeId>)
    requires DoomedOrGone(s, h, since, nodes)
    ensures DoomedOrGone(DoReap(s, k, removed, ok), h, since, nodes)
  {
  }

  lemma RepairStaysDoomedOrGone(s: State, k: Hash, node: NodeId, outcome: RepairOutcome, h: Hash, since: int,
                                nodes: set<NodeId>)
    requires DoomedOrGone(s, h, since, nodes)
    ensures DoomedOrGone(DoRepair(s, k, node, outcome), h, since, nodes)
  {
  }

  lemma StepKeepsCondemned(cfg: Config, s: State, a: Action, h: Hash, since: int, nodes: set<NodeId>)
    requires Condemned(s, h, since, nodes) && LeavesAlone(a, h)
    ensures Condemned(Step(cfg, s, a), h, since, nodes)
  {
    hide Step, Unlisted, Pinned, Referenced, DoomedOrGone;
    StaysUnlisted(cfg, s, a, h);
    StaysUnpinned(cfg, s, a, h);
    StaysUnreferenced(cfg, s, a, h);
    StaysDoomedOrGone(cfg, s, a, h, since, nodes);
  }

  lemma {:induction false} ExecKeepsCondemned(cfg: Config, s: State, acts: seq<Action>, h: Hash, since: int,
                                              nodes: set<NodeId>)
    requires Condemned(s, h, since, nodes) && forall i :: 0 <= i < |acts| ==> LeavesAlone(acts[i], h)
    ensures Condemned(Exec(cfg, s, acts), h, since, nodes)
    decreases |acts|
  {
    hide Condemned, Step;
    if acts != [] {
      StepKeepsCondemned(cfg, s, acts[0], h, since, nodes);
      ExecKeepsCondemned(cfg, Step(cfg, s, acts[0]), acts[1..], h, since, nodes);
    }
  }

  // ---------------------------------------------------------------- and the sweep takes it

  lemma MarkCondemns(cfg: Config, s: State, h: Hash)
    requires h in s.chunks && s.chunks[h].gc == Live && s.sweep == Idle && s.chunks[h].lastSeen < s.now - cfg.grace
    requires Unlisted(s, h) && !Pinned(s, h) && !Referenced(s, h)
    ensures Condemned(Step(cfg, s, Mark), h, s.now, s.chunks[h].locations.Keys)
  {
    assert !RecentlyPinned(s, h);
  }

  lemma SweepTakes(cfg: Config, s: State, h: Hash, since: int, nodes: set<NodeId>)
    requires Condemned(s, h, since, nodes) && s.sweep == Idle && since < s.now - cfg.grace && nodes !! s.down
    ensures var s' := Step(cfg, Step(cfg, s, Scan), Reap(h, {}, true)); h !in s'.chunks && Holders(s', h) !! nodes
  {
    if h in s.chunks {
      ScanFinds(cfg, s, h);
    }
  }

  /** A chunk no version lists, no session has an attempt for, no completion is about to list and no
      check has seen for a grace window: after a mark, then any run that leaves it alone and takes
      longer than a grace window, then a sweep with its nodes up, its row and every object recorded
      for it are gone. */
  lemma GarbageIsCollected(cfg: Config, s: State, h: Hash, acts: seq<Action>)
    requires h in s.chunks && s.chunks[h].gc == Live && s.sweep == Idle && s.chunks[h].lastSeen < s.now - cfg.grace
    requires Unlisted(s, h) && !Pinned(s, h) && !Referenced(s, h)
    requires forall i :: 0 <= i < |acts| ==> LeavesAlone(acts[i], h)
    requires var t := Exec(cfg, Step(cfg, s, Mark), acts);
      t.sweep == Idle && t.now > s.now + cfg.grace && s.chunks[h].locations.Keys !! t.down
    ensures var t := Exec(cfg, Step(cfg, s, Mark), acts);
      var s' := Step(cfg, Step(cfg, t, Scan), Reap(h, {}, true));
      h !in s'.chunks && Holders(s', h) !! s.chunks[h].locations.Keys
  {
    hide Condemned, Step, Exec;
    var nodes := s.chunks[h].locations.Keys;
    MarkCondemns(cfg, s, h);
    ExecKeepsCondemned(cfg, Step(cfg, s, Mark), acts, h, s.now, nodes);
    SweepTakes(cfg, Exec(cfg, Step(cfg, s, Mark), acts), h, s.now, nodes);
  }
}
