/**
 The repair pass of NodeRepair, seen from the chunk machine: it is a run of its repair steps, with a
 stray PUT for each write that failed and landed all the same. So no pass, whatever fails in it, ever
 costs a promised chunk.
 */
module RepairRefines {
  import opened Entities
  import opened ChunkState
  import opened ChunkSafety
  import NodeRepair

  function StatusOf(status: NodeRepair.Status): LocationStatus {
    if status == NodeRepair.Committed then LocationCommitted else LocationDegraded
  }

  predicate Recorded(s: State, l: NodeRepair.Loc) {
    l.hash in s.chunks && l.node in s.chunks[l.hash].locations
  }

  /** The rows and objects of the pass are those of the machine, at one location. */
  ghost predicate AgreesAt(rows: NodeRepair.Rows, objects: NodeRepair.Objects, s: State, l: NodeRepair.Loc) {
    && (l in rows <==> Recorded(s, l))
    && (l in rows ==> s.chunks[l.hash].locations[l.node] == StatusOf(rows[l]))
    && (l in objects <==> l.node in Holders(s, l.hash))
  }

  ghost predicate Agrees(rows: NodeRepair.Rows, objects: NodeRepair.Objects, s: State) {
    forall l :: AgreesAt(rows, objects, s, l)
  }

  /** Repairs, and PUTs that no upload asked for. */
  predicate IsRepairAction(s: State, a: Action) {
    a.Repair? || (a.Put? && a.u !in s.uploads)
  }

  /** s' is reached from s by such actions only. */
  ghost predicate RepairRun(cfg: Config, s: State, s': State) {
    exists acts :: (forall i :: 0 <= i < |acts| ==> IsRepairAction(s, acts[i])) && Exec(cfg, s, acts) == s'
  }

  lemma NoRun(cfg: Config, s: State)
    ensures RepairRun(cfg, s, s)
  {
    assert Exec(cfg, s, []) == s;
  }

  lemma RunSnoc(cfg: Config, s: State, t: State, a: Action)
    requires RepairRun(cfg, s, t) && IsRepairAction(s, a)
    ensures RepairRun(cfg, s, Step(cfg, t, a))
  {
    hide Step, Exec;
    var acts :| (forall i :: 0 <= i < |acts| ==> IsRepairAction(s, acts[i])) && Exec(cfg, s, acts) == t;
    ExecSnoc(cfg, s, acts, a);
  }

  // ---------------------------------------------------------------- one location after another

  /** The pass changes nothing but the location l. */
  ghost predicate OnlyAt(s: State, s': State, l: NodeRepair.Loc) {
    && s'.uploads == s.uploads && s'.down == s.down
    && (forall k: NodeRepair.Loc :: k != l ==> (Recorded(s', k) <==> Recorded(s, k)))
    && (forall k: NodeRepair.Loc :: k != l && Recorded(s, k) ==>
          s'.chunks[k.hash].locations[k.node] == s.chunks[k.hash].locations[k.node])
    && (forall k: NodeRepair.Loc :: k != l ==> (k.node in Holders(s', k.hash) <==> k.node in Holders(s, k.hash)))
  }

  lemma StrayPut(s: State, u: UploadId, l: NodeRepair.Loc)
    requires u !in s.uploads && l.node !in s.down
    ensures var s' := DoPut(s, u, l.hash, l.node);
      OnlyAt(s, s', l) && s'.chunks == s.chunks && l.node in Holders(s', l.hash)
  {
  }

  lemma Degrades(s: State, l: NodeRepair.Loc)
    requires Recorded(s, l)
    ensures var s' := DoRepair(s, l.hash, l.node, Unrepairable);
      OnlyAt(s, s', l) && Recorded(s', l) && s'.chunks[l.hash].locations[l.node] == LocationDegraded
      && s'.objects == s.objects
  {
  }

  lemma Restores(s: State, l: NodeRepair.Loc, source: NodeId)
    requires Recorded(s, l) && Recorded(s, NodeRepair.Loc(l.hash, source)) && source != l.node && l.node !in s.down
    requires s.chunks[l.hash].locations[source] == LocationCommitted && source in Holders(s, l.hash)
    ensures var s' := DoRepair(s, l.hash, l.node, Restored(source));
      OnlyAt(s, s', l) && Recorded(s', l) && s'.chunks[l.hash].locations[l.node] == LocationCommitted
      && l.node in Holders(s', l.hash)
  {
  }

  lemma AgreeElsewhere(rows: NodeRepair.Rows, objects: NodeRepair.Objects, rows': NodeRepair.Rows,
                       objects': NodeRepair.Objects,
                       s: State, s': State, l: NodeRepair.Loc)
    requires Agrees(rows, objects, s) && OnlyAt(s, s', l)
    requires NodeRepair.OnlyTouches(rows, objects, rows', objects', l.node, {l.hash})
    requires AgreesAt(rows', objects', s', l)
    ensures Agrees(rows', objects', s')
  {
    forall k ensures AgreesAt(rows', objects', s', k) {
      assert AgreesAt(rows, objects, s, k);
      if k != l { assert NodeRepair.SameObject(objects, objects', k); }
    }
  }

  /** What the pass does for one chunk, the machine does in at most two steps. */
  lemma OneChunk(cfg: Config, s0: State, s: State, u: UploadId, rows: NodeRepair.Rows, objects: NodeRepair.Objects,
                 rows': NodeRepair.Rows, objects': NodeRepair.Objects,
                 h: Hash, node: NodeId, f: NodeRepair.Faults, v: NodeRepair.Verdict) returns (s': State)
    requires RepairRun(cfg, s0, s) && Agrees(rows, objects, s) && s.uploads == s0.uploads && u !in s.uploads &&
      node !in s.down
    requires NodeRepair.IsCommitted(rows, NodeRepair.Loc(h, node))
    requires NodeRepair.OnlyTouches(rows, objects, rows', objects', node, {h})
    requires NodeRepair.Outcome(rows, objects, rows', objects', h, node, f, v)
    ensures RepairRun(cfg, s0, s') && Agrees(rows', objects', s') && s'.uploads == s.uploads && s'.down == s.down
  {
    hide RepairRun, DoPut, DoRepair;
    var l := NodeRepair.Loc(h, node);
    assert AgreesAt(rows, objects, s, l);
    s' := s;
    if v == NodeRepair.Restored {
      var src :| NodeRepair.IsSource(rows, h, node, src) && NodeRepair.CopiedFrom(objects, objects', src, l);
      assert AgreesAt(rows, objects, s, src);
      Restores(s, l, src.node);
      RunSnoc(cfg, s0, s, Repair(h, node, Restored(src.node)));
      s' := DoRepair(s, h, node, Restored(src.node));
    } else {
      if l in objects' && l !in objects {
        StrayPut(s, u, l);
        RunSnoc(cfg, s0, s, Put(u, h, node));
        s' := DoPut(s, u, h, node);
      }
      if rows'[l] == NodeRepair.Degraded {
        Degrades(s', l);
        RunSnoc(cfg, s0, s', Repair(h, node, Unrepairable));
        s' := DoRepair(s', h, node, Unrepairable);
      }
    }
    AgreeElsewhere(rows, objects, rows', objects', s, s', l);
  }

  // ---------------------------------------------------------------- the whole pass

  lemma TouchesBack(rows: NodeRepair.Rows, objects: NodeRepair.Objects, rows': NodeRepair.Rows,
                    objects': NodeRepair.Objects,
                    node: NodeId, done: set<Hash>)
    requires NodeRepair.OnlyTouches(rows, objects, rows', objects', node, done)
    ensures NodeRepair.OnlyTouches(rows', objects', rows, objects, node, done)
  {
    forall l: NodeRepair.Loc | !(l.node == node && l.hash in done) ensures NodeRepair.SameObject(objects', objects, l) {
      assert NodeRepair.SameObject(objects, objects', l);
    }
  }

  /** The object of l as it was before. */
  function WithObject(objects: NodeRepair.Objects, before: NodeRepair.Objects, l: NodeRepair.Loc): NodeRepair.Objects {
    if l in before then objects[l := before[l]] else objects - {l}
  }

  /** The tables before the pass came to h, had it been the last: its location as at the start. */
  lemma BeforeLast(rows: NodeRepair.Rows, objects: NodeRepair.Objects, rows': NodeRepair.Rows,
                   objects': NodeRepair.Objects,
                   node: NodeId, faults: Hash -> NodeRepair.Faults, verdicts: map<Hash, NodeRepair.Verdict>,
                   done: set<Hash>, h: Hash)
    requires NodeRepair.Pass(rows, objects, rows', objects', node, faults, verdicts, done) && h in done
    requires NodeRepair.Loc(h, node) in rows
    ensures var l := NodeRepair.Loc(h, node);
      var rows1, objects1 := rows'[l := rows[l]], WithObject(objects', objects, l);
      && NodeRepair.Pass(rows, objects, rows1, objects1, node, faults, verdicts - {h}, done - {h})
      && NodeRepair.OnlyTouches(rows1, objects1, rows', objects', node, {h})
      && NodeRepair.Outcome(rows1, objects1, rows', objects', h, node, faults(h), verdicts[h])
  {
    var l := NodeRepair.Loc(h, node);
    var rows1, objects1 := rows'[l := rows[l]], WithObject(objects', objects, l);
    UndoTouches(rows, objects, rows', objects', node, done, h);
    TouchesBack(rows', objects', rows1, objects1, node, {h});
    TouchesBack(rows, objects, rows1, objects1, node, done - {h});
    hide NodeRepair.Outcome, NodeRepair.OnlyTouches;
    forall g | g in done - {h}
      ensures NodeRepair.Outcome(rows, objects, rows1, objects1, g, node, faults(g), verdicts[g])
    {
      NodeRepair.OutcomeOfEarlier(rows, objects, rows', objects', rows1, objects1, node, g, h, faults(g), verdicts[g]);
    }
    NodeRepair.OutcomeOfNext(rows1, objects1, rows, objects, rows', objects', node, done - {h}, h, faults(h),
      verdicts[h]);
  }

  lemma UndoTouches(rows: NodeRepair.Rows, objects: NodeRepair.Objects, rows': NodeRepair.Rows,
                    objects': NodeRepair.Objects,
                    node: NodeId, done: set<Hash>, h: Hash)
    requires NodeRepair.OnlyTouches(rows, objects, rows', objects', node, done) && h in done &&
      NodeRepair.Loc(h, node) in rows
    ensures var l := NodeRepair.Loc(h, node);
      var rows1, objects1 := rows'[l := rows[l]], WithObject(objects', objects, l);
      && NodeRepair.OnlyTouches(rows', objects', rows1, objects1, node, {h})
      && NodeRepair.OnlyTouches(rows, objects, rows1, objects1, node, done - {h})
  {
    var l := NodeRepair.Loc(h, node);
    var objects1 := WithObject(objects', objects, l);
    forall k: NodeRepair.Loc
      ensures k != l ==> NodeRepair.SameObject(objects', objects1, k)
      ensures !(k.node == node && k.hash in done - {h}) ==> NodeRepair.SameObject(objects, objects1, k)
    {
      if k != l && !(k.node == node && k.hash in done) { assert NodeRepair.SameObject(objects, objects', k); }
    }
  }

  /** A whole pass, with whatever faults and in whatever order, is a run of the machine. */
  lemma {:induction false} PassIsARun(cfg: Config, s: State, u: UploadId, rows: NodeRepair.Rows,
                                      objects: NodeRepair.Objects,
                                      rows': NodeRepair.Rows, objects': NodeRepair.Objects, node: NodeId,
                                      faults: Hash -> NodeRepair.Faults, verdicts: map<Hash, NodeRepair.Verdict>,
                                      done: set<Hash>) returns (s': State)
    requires Agrees(rows, objects, s) && u !in s.uploads && node !in s.down
    requires NodeRepair.Pass(rows, objects, rows', objects', node, faults, verdicts, done)
    requires forall h :: h in done ==> NodeRepair.IsCommitted(rows, NodeRepair.Loc(h, node))
    ensures RepairRun(cfg, s, s') && Agrees(rows', objects', s') && s'.uploads == s.uploads && s'.down == s.down
    decreases |done|
  {
    if done == {} {
      NoRun(cfg, s);
      s' := s;
      forall k ensures AgreesAt(rows', objects', s, k) {
        assert AgreesAt(rows, objects, s, k) && NodeRepair.SameObject(objects, objects', k);
      }
    } else {
      hide Agrees, RepairRun, NodeRepair.Pass, NodeRepair.OnlyTouches, NodeRepair.Outcome;
      var h :| h in done;
      var l := NodeRepair.Loc(h, node);
      var rows1, objects1 := rows'[l := rows[l]], WithObject(objects', objects, l);
      VerdictThere(rows, objects, rows', objects', node, faults, verdicts, done);
      BeforeLast(rows, objects, rows', objects', node, faults, verdicts, done, h);
      var t := PassIsARun(cfg, s, u, rows, objects, rows1, objects1, node, faults, verdicts - {h}, done - {h});
      s' := OneChunk(cfg, s, t, u, rows1, objects1, rows', objects', h, node, faults(h), verdicts[h]);
    }
  }

  lemma VerdictThere(rows: NodeRepair.Rows, objects: NodeRepair.Objects, rows': NodeRepair.Rows,
                     objects': NodeRepair.Objects,
                     node: NodeId, faults: Hash -> NodeRepair.Faults, verdicts: map<Hash, NodeRepair.Verdict>,
                     done: set<Hash>)
    requires NodeRepair.Pass(rows, objects, rows', objects', node, faults, verdicts, done)
    ensures verdicts.Keys == done
  {
  }

  // ---------------------------------------------------------------- and so it is safe

  lemma {:induction false} RepairsArePrompt(cfg: Config, tests: Tests, s: State, acts: seq<Action>)
    requires forall i :: 0 <= i < |acts| ==> acts[i].Repair? || acts[i].Put?
    ensures PromptRun(cfg, tests, s, acts)
    decreases |acts|
  {
    hide Step;
    if acts != [] { RepairsArePrompt(cfg, tests, Step(cfg, s, acts[0]), acts[1..]); }
  }

  /** After any repair pass on any reachable state every promised chunk is as safe as before. */
  lemma PassKeepsSafe(cfg: Config, s: State, u: UploadId, rows: NodeRepair.Rows, objects: NodeRepair.Objects,
                      rows': NodeRepair.Rows, objects': NodeRepair.Objects, node: NodeId,
                      faults: Hash -> NodeRepair.Faults, verdicts: map<Hash, NodeRepair.Verdict>) returns (s': State)
    requires SafeInv(cfg, s) && Agrees(rows, objects, s) && u !in s.uploads && node !in s.down
    requires NodeRepair.Pass(rows, objects, rows', objects', node, faults, verdicts, NodeRepair.CommittedOn(rows, node))
    ensures SafeInv(cfg, s') && Safe(cfg, s') && Agrees(rows', objects', s') && RepairRun(cfg, s, s')
  {
    hide Agrees, NodeRepair.Pass, Exec, PromptRun;
    var done := NodeRepair.CommittedOn(rows, node);
    s' := PassIsARun(cfg, s, u, rows, objects, rows', objects', node, faults, verdicts, done);
    var acts :| (forall i :: 0 <= i < |acts| ==> IsRepairAction(s, acts[i])) && Exec(cfg, s, acts) == s';
    var tests := Tests(0, true, true);
    RepairsArePrompt(cfg, tests, s, acts);
    ExecKeepsSafe(cfg, tests, s, acts);
  }
}
