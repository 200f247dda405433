/**
 What the dedup check promises: within one grace window, a lease on every hash it reports present.
 */
module ChunkLeases {
  import opened Entities
  import opened ChunkState
  import opened ChunkSafety

  /** h is live, proven by org, and its lease is no older than t. */
  ghost predicate Held(s: State, org: OrgId, h: Hash, t: int) {
    h in s.chunks && s.chunks[h].gc == Live && s.chunks[h].lastSeen >= t && (org, h) in s.proofs
  }

  lemma MarkKeepsHeld(cfg: Config, s: State, org: OrgId, h: Hash, t: int)
    requires Held(s, org, h, t) && s.now <= t + cfg.grace
    ensures Held(DoMark(cfg, s), org, h, t)
  {
  }

  lemma ReapKeepsHeld(s: State, k: Hash, removed: set<NodeId>, ok: bool, org: OrgId, h: Hash, t: int)
    requires Held(s, org, h, t)
    ensures Held(DoReap(s, k, removed, ok), org, h, t)
  {
  }

  lemma BeginKeepsHeld(s: State, c: CallId, u: UploadId, o: OrgId, hashes: seq<Hash>, org: OrgId, h: Hash, t: int)
    requires Held(s, org, h, t) && t <= s.now
    ensures Held(DoBegin(s, c, u, o, hashes), org, h, t)
  {
  }

  lemma CommitKeepsHeld(cfg: Config, s: State, a: Action, org: OrgId, h: Hash, t: int)
    requires Held(s, org, h, t) && t <= s.now && (a.CommitChunk? || a.Repair?)
    ensures Held(Step(cfg, s, a), org, h, t)
  {
  }

  lemma StepKeepsHeld(cfg: Config, s: State, a: Action, org: OrgId, h: Hash, t: int)
    requires Held(s, org, h, t) && t <= s.now <= t + cfg.grace
    ensures Held(Step(cfg, s, a), org, h, t)
  {
    hide DoCommit, DoRepair, DoMark, DoReap, DoBegin;
    match a
    case Mark => MarkKeepsHeld(cfg, s, org, h, t);
    case Reap(k, removed, ok) => ReapKeepsHeld(s, k, removed, ok, org, h, t);
    case BeginComplete(c, u, o, hashes) => BeginKeepsHeld(s, c, u, o, hashes, org, h, t);
    case CommitChunk(_, _, _, _, _) => CommitKeepsHeld(cfg, s, a, org, h, t);
    case Repair(_, _, _) => CommitKeepsHeld(cfg, s, a, org, h, t);
    case _ =>
  }

  /** Steps of clients, of the sweeper, and the others. */
  predicate ByClient(a: Action) {
    a.InitChunk? || a.Put? || a.CommitChunk? || a.BeginComplete? || a.CreateVersion? || a.FinishComplete?
  }

  predicate BySweeper(a: Action) { a.Mark? || a.Scan? || a.Reap? || a.Repair? }

  lemma ClientMovesClock(cfg: Config, s: State, a: Action)
    requires ByClient(a)
    ensures s.now == Step(cfg, s, a).now && s.issued == Step(cfg, s, a).issued
  {
    hide DoInitChunk, DoPut, DoCommit, DoBegin, DoCreate, DoFinish;
  }

  lemma SweeperMovesClock(cfg: Config, s: State, a: Action)
    requires BySweeper(a)
    ensures s.now == Step(cfg, s, a).now && s.issued == Step(cfg, s, a).issued && s.uploads == Step(cfg, s, a).uploads
  {
    hide DoMark, DoScan, DoReap, DoRepair;
  }

  lemma StepMovesClock(cfg: Config, s: State, a: Action)
    ensures s.now <= Step(cfg, s, a).now
    ensures s.issued <= Step(cfg, s, a).issued
  {
    if ByClient(a) {
      hide Step;
      ClientMovesClock(cfg, s, a);
    } else if BySweeper(a) {
      hide Step;
      SweeperMovesClock(cfg, s, a);
    }
  }

  lemma {:induction false} ExecMovesClock(cfg: Config, s: State, acts: seq<Action>)
    ensures s.now <= Exec(cfg, s, acts).now
    decreases |acts|
  {
    if acts != [] {
      StepMovesClock(cfg, s, acts[0]);
      ExecMovesClock(cfg, Step(cfg, s, acts[0]), acts[1..]);
    }
  }

  lemma {:induction false} ExecKeepsHeld(cfg: Config, s: State, acts: seq<Action>, org: OrgId, h: Hash, t: int)
    requires Held(s, org, h, t) && t <= s.now
    requires Exec(cfg, s, acts).now <= t + cfg.grace
    ensures Held(Exec(cfg, s, acts), org, h, t)
    decreases |acts|
  {
    if acts != [] {
      ExecMovesClock(cfg, s, acts);
      StepKeepsHeld(cfg, s, acts[0], org, h, t);
      StepMovesClock(cfg, s, acts[0]);
      ExecKeepsHeld(cfg, Step(cfg, s, acts[0]), acts[1..], org, h, t);
    }
  }

  /** A committed attempt stays committed for as long as its upload row exists, and upload ids
      are never reused. */
  lemma StepKeepsCommitted(cfg: Config, s: State, a: Action, u: UploadId, h: Hash)
    requires u in s.issued
    requires u in s.uploads ==> CommittedIn(s, u, h)
    ensures u in Step(cfg, s, a).uploads ==> CommittedIn(Step(cfg, s, a), u, h)
  {
    if ByClient(a) {
      hide Step;
      ClientKeepsCommitted(cfg, s, a, u, h);
    } else if BySweeper(a) {
      hide Step;
      SweeperMovesClock(cfg, s, a);
    }
  }

  lemma ClientKeepsCommitted(cfg: Config, s: State, a: Action, u: UploadId, h: Hash)
    requires ByClient(a)
    requires u in s.uploads ==> CommittedIn(s, u, h)
    ensures u in Step(cfg, s, a).uploads ==> CommittedIn(Step(cfg, s, a), u, h)
  {
    if a.CommitChunk? || a.InitChunk? || a.Put? {
      hide Step;
      UploaderKeepsCommitted(cfg, s, a, u, h);
    } else {
      hide Touch, PresentFor;
    }
  }

  lemma UploaderKeepsCommitted(cfg: Config, s: State, a: Action, u: UploadId, h: Hash)
    requires a.CommitChunk? || a.InitChunk? || a.Put?
    requires u in s.uploads ==> CommittedIn(s, u, h)
    ensures u in Step(cfg, s, a).uploads ==> CommittedIn(Step(cfg, s, a), u, h)
  {
    hide Committing, EtagsAgree, Truthful;
  }

  lemma {:induction false} ExecKeepsCommitted(cfg: Config, s: State, acts: seq<Action>, u: UploadId, h: Hash)
    requires u in s.issued
    requires u in s.uploads ==> CommittedIn(s, u, h)
    ensures u in Exec(cfg, s, acts).uploads ==> CommittedIn(Exec(cfg, s, acts), u, h)
    decreases |acts|
  {
    if acts != [] {
      StepKeepsCommitted(cfg, s, acts[0], u, h);
      StepMovesClock(cfg, s, acts[0]);
      ExecKeepsCommitted(cfg, Step(cfg, s, acts[0]), acts[1..], u, h);
    }
  }

  /** The dedup check is a lease: a hash it reports present for (org, u) is still present at any
      later check or completion of u within one grace window, whatever runs in between. */
  lemma CheckIsALease(cfg: Config, s: State, u: UploadId, org: OrgId, hashes: seq<Hash>, h: Hash, acts: seq<Action>)
    requires ClockInv(cfg, s) && u in s.uploads
    requires h in hashes && PresentFor(s, org, u, h)
    requires var s' := Exec(cfg, Step(cfg, s, CheckChunks(u, org, hashes)), acts);
      u in s'.uploads && s'.now <= s.now + cfg.grace
    ensures PresentFor(Exec(cfg, Step(cfg, s, CheckChunks(u, org, hashes)), acts), org, u, h)
  {
    var t := Step(cfg, s, CheckChunks(u, org, hashes));
    if CommittedIn(s, u, h) {
      ExecKeepsCommitted(cfg, t, acts, u, h);
    } else {
      ExecKeepsHeld(cfg, t, acts, org, h, s.now);
    }
  }
}
