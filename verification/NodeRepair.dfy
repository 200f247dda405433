/**
 A repair pass over one node: every chunk recorded as committed there is looked up on the node, and
 a missing one is copied back from another replica. Any call to the database or a node may fail; a
 call that succeeds is taken to have told the truth.
 */
module NodeRepair {
  import opened Entities

  datatype Loc = Loc(hash: Hash, node: NodeId)
  datatype Status = Committed | Degraded

  /** A failed write to a node may or may not have stored the bytes. */
  datatype Put = Acked | Failed(landed: bool)

  /** Which of the calls made for one chunk succeed. */
  datatype Faults = Faults(stat: bool, degrade: bool, list: bool, read: bool, put: Put, repaired: bool)

  const CALM := Faults(true, true, true, true, Acked, true)

  datatype Result = Result(checked: nat, restored: nat, unrepairable: nat)
  datatype Verdict = Present | Restored | Unrepairable

  type Rows = map<Loc, Status>
  type Objects = map<Loc, seq<int>>

  predicate IsCommitted(rows: Rows, l: Loc) { l in rows && rows[l] == Committed }

  function CommittedOn(rows: Rows, node: NodeId): set<Hash> {
    set l | l in rows && rows[l] == Committed && l.node == node :: l.hash
  }

  /** l holds another replica of h that a copy may be taken from. */
  predicate IsSource(rows: Rows, h: Hash, node: NodeId, l: Loc) {
    l.hash == h && l.node != node && IsCommitted(rows, l)
  }

  /** h has a committed replica elsewhere, and all such replicas are really there. */
  ghost predicate Restorable(rows: Rows, objects: Objects, h: Hash, node: NodeId) {
    && (exists src :: IsSource(rows, h, node, src))
    && (forall src :: IsSource(rows, h, node, src) ==> src in objects)
  }

  /** What one pass may have done to the row and the object of h on the node. */
  ghost predicate Outcome(rows: Rows, objects: Objects, rows': Rows, objects': Objects,
                          h: Hash, node: NodeId, f: Faults, v: Verdict)
  {
    var l := Loc(h, node);
    var found := f.stat && l in objects;
    && l in rows'
    && (v == Present <==> found)
    && (v == Present ==> rows'[l] == Committed && l in objects' && objects'[l] == objects[l])
    // restored: the bytes of some other committed replica are there
    && (v == Restored ==> rows'[l] == Committed)
    && (v == Restored ==> exists src :: IsSource(rows, h, node, src) && CopiedFrom(objects, objects', src, l))
    // not restored: the row says so, unless even that write failed
    && (v == Unrepairable ==> (rows'[l] == Degraded <==> f.degrade))
    && (v == Unrepairable ==> CopyOrOld(rows, objects, objects', h, node))
    && (v == Unrepairable && !f.degrade ==> SameObject(objects, objects', l))
    // exactly when: enough, and necessary
    && (Restorable(rows, objects, h, node) && !found && f == CALM.(stat := f.stat) ==> v == Restored)
    && (v == Restored ==> f.degrade && f.list && f.read && f.put == Acked && f.repaired)
  }

  ghost predicate CopiedFrom(objects: Objects, objects': Objects, src: Loc, l: Loc) {
    src in objects && l in objects' && objects'[l] == objects[src]
  }

  ghost predicate SameObject(objects: Objects, objects': Objects, l: Loc) {
    (l in objects' <==> l in objects) && (l in objects ==> objects'[l] == objects[l])
  }

  ghost predicate CopyOrOld(rows: Rows, objects: Objects, objects': Objects, h: Hash, node: NodeId) {
    SameObject(objects, objects', Loc(h, node)) ||
    exists src :: IsSource(rows, h, node, src) && CopiedFrom(objects, objects', src, Loc(h, node))
  }

  /** Only the locations (h, node) with h in hashes may differ. */
  ghost predicate OnlyTouches(rows: Rows, objects: Objects, rows': Rows, objects': Objects, node: NodeId,
                              hashes: set<Hash>) {
    && rows'.Keys == rows.Keys
    && (forall l :: l in rows && !(l.node == node && l.hash in hashes) ==> rows'[l] == rows[l])
    && (forall l: Loc :: !(l.node == node && l.hash in hashes) ==> SameObject(objects, objects', l))
  }

  /** A whole pass, with a verdict for every chunk that was committed on the node. */
  ghost predicate Pass(rows: Rows, objects: Objects, rows': Rows, objects': Objects, node: NodeId,
                       faults: Hash -> Faults, verdicts: map<Hash, Verdict>, done: set<Hash>)
  {
    && verdicts.Keys == done
    && OnlyTouches(rows, objects, rows', objects', node, done)
    && forall h :: h in done ==> Outcome(rows, objects, rows', objects', h, node, faults(h), verdicts[h])
  }

  function Count(verdicts: map<Hash, Verdict>, v: Verdict): nat {
    |set h | h in verdicts && verdicts[h] == v|
  }

  // ---------------------------------------------------------------- one more chunk

  lemma OutcomeOfEarlier(rows: Rows, objects: Objects, rows1: Rows, objects1: Objects, rows2: Rows, objects2: Objects,
                         node: NodeId, h: Hash, next: Hash, f: Faults, v: Verdict)
    requires h != next && Outcome(rows, objects, rows1, objects1, h, node, f, v)
    requires OnlyTouches(rows1, objects1, rows2, objects2, node, {next})
    ensures Outcome(rows, objects, rows2, objects2, h, node, f, v)
  {
    var l := Loc(h, node);
    assert rows2[l] == rows1[l] && SameObject(objects1, objects2, l);
    forall src: Loc | CopiedFrom(objects, objects1, src, l) ensures CopiedFrom(objects, objects2, src, l) {}
  }

  lemma OutcomeOfNext(rows: Rows, objects: Objects, rows1: Rows, objects1: Objects, rows2: Rows, objects2: Objects,
                      node: NodeId, done: set<Hash>, h: Hash, f: Faults, v: Verdict)
    requires h !in done && OnlyTouches(rows, objects, rows1, objects1, node, done)
    requires Outcome(rows1, objects1, rows2, objects2, h, node, f, v)
    ensures Outcome(rows, objects, rows2, objects2, h, node, f, v)
  {
    var l := Loc(h, node);
    assert SameObject(objects, objects1, l);
    forall src: Loc ensures IsSource(rows1, h, node, src) <==> IsSource(rows, h, node, src) {}
    forall src: Loc | IsSource(rows, h, node, src)
      ensures SameObject(objects, objects1, src) &&
        (CopiedFrom(objects1, objects2, src, l) <==> CopiedFrom(objects, objects2, src, l)) {}
  }

  lemma PassExtends(rows: Rows, objects: Objects, rows1: Rows, objects1: Objects, rows2: Rows, objects2: Objects,
                    node: NodeId,
                    faults: Hash -> Faults, verdicts: map<Hash, Verdict>, done: set<Hash>, h: Hash, v: Verdict)
    requires h !in done && Pass(rows, objects, rows1, objects1, node, faults, verdicts, done)
    requires OnlyTouches(rows1, objects1, rows2, objects2, node, {h})
    requires Outcome(rows1, objects1, rows2, objects2, h, node, faults(h), v)
    ensures Pass(rows, objects, rows2, objects2, node, faults, verdicts[h := v], done + {h})
  {
    TouchesAdd(rows, objects, rows1, objects1, rows2, objects2, node, done, h);
    hide Outcome, OnlyTouches;
    OutcomeOfNext(rows, objects, rows1, objects1, rows2, objects2, node, done, h, faults(h), v);
    forall g | g in done ensures Outcome(rows, objects, rows2, objects2, g, node, faults(g), verdicts[g]) {
      OutcomeOfEarlier(rows, objects, rows1, objects1, rows2, objects2, node, g, h, faults(g), verdicts[g]);
    }
  }

  lemma TouchesAdd(rows: Rows, objects: Objects, rows1: Rows, objects1: Objects, rows2: Rows, objects2: Objects,
                   node: NodeId, done: set<Hash>, h: Hash)
    requires OnlyTouches(rows, objects, rows1, objects1, node, done)
    requires OnlyTouches(rows1, objects1, rows2, objects2, node, {h})
    ensures OnlyTouches(rows, objects, rows2, objects2, node, done + {h})
  {
    forall l: Loc | !(l.node == node && l.hash in done + {h}) ensures SameObject(objects, objects2, l) {
      assert SameObject(objects, objects1, l) && SameObject(objects1, objects2, l);
    }
  }

  /** The counters of the result, as counts of verdicts. */
  ghost predicate Tally(res: Result, verdicts: map<Hash, Verdict>) {
    && res.restored == Count(verdicts, Restored) && res.unrepairable == Count(verdicts, Unrepairable)
    && res.checked == |verdicts| == Count(verdicts, Present) + res.restored + res.unrepairable
  }

  function Tallied(res: Result, v: Verdict): Result {
    Result(res.checked + 1, res.restored + (if v == Restored then 1 else 0),
           res.unrepairable + if v == Unrepairable then 1 else 0)
  }

  lemma TallyExtends(res: Result, verdicts: map<Hash, Verdict>, h: Hash, v: Verdict)
    requires h !in verdicts && Tally(res, verdicts)
    ensures Tally(Tallied(res, v), verdicts[h := v])
  {
    hide Count;
    CountExtends(verdicts, h, v, Present);
    CountExtends(verdicts, h, v, Restored);
    CountExtends(verdicts, h, v, Unrepairable);
  }

  lemma CountExtends(verdicts: map<Hash, Verdict>, h: Hash, v: Verdict, w: Verdict)
    requires h !in verdicts
    ensures Count(verdicts[h := v], w) == Count(verdicts, w) + if v == w then 1 else 0
  {
    var before := set g | g in verdicts && verdicts[g] == w;
    var more := verdicts[h := v];
    var after := set g | g in more && more[g] == w;
    assert after == if v == w then before + {h} else before;
  }

  class Router {
    const nodes: set<NodeId>
    var rows: Rows
    var objects: Objects

    /** The rows of one chunk, in whatever order the database returns them. */
    method LocationsForChunk(h: Hash) returns (out: seq<NodeId>)
      ensures forall n :: n in out <==> IsCommitted(rows, Loc(h, n))
    {
      out := [];
      var todo := rows.Keys;
      while todo != {}
        invariant todo <= rows.Keys
        invariant forall n :: n in out <==> IsCommitted(rows, Loc(h, n)) && Loc(h, n) !in todo
      {
        var l :| l in todo;
        todo := todo - {l};
        if l.hash == h && rows[l] == Committed { out := out + [l.node]; }
      }
    }

    method CommittedChunksForNode(node: NodeId) returns (out: seq<Hash>)
      ensures forall h :: h in out <==> IsCommitted(rows, Loc(h, node))
      ensures forall i, j :: 0 <= i < j < |out| ==> out[i] != out[j]
    {
      out := [];
      var todo := rows.Keys;
      while todo != {}
        invariant todo <= rows.Keys
        invariant forall h :: h in out <==> IsCommitted(rows, Loc(h, node)) && Loc(h, node) !in todo
        invariant forall i, j :: 0 <= i < j < |out| ==> out[i] != out[j]
      {
        var l :| l in todo;
        todo := todo - {l};
        if l.node == node && rows[l] == Committed {
          assert l == Loc(l.hash, node) && l.hash !in out;
          out := out + [l.hash];
        }
      }
    }

    /** Copies h from the first other committed replica, with the row degraded in between. */
    method RestoreChunk(h: Hash, node: NodeId, f: Faults) returns (ok: bool)
      requires IsCommitted(rows, Loc(h, node)) && !(f.stat && Loc(h, node) in objects)
      modifies this`rows, this`objects
      ensures OnlyTouches(old(rows), old(objects), rows, objects, node, {h})
      ensures Outcome(old(rows), old(objects), rows, objects, h, node, f, if ok then Restored else Unrepairable)
    {
      var l := Loc(h, node);
      if !f.degrade { return false; }
      rows := rows[l := Degraded];
      if !f.list { return false; }
      var locations := LocationsForChunk(h);
      ghost var before := old(rows);
      var source := l;
      for i := 0 to |locations|
        invariant source == l
        invariant forall k :: 0 <= k < i ==> locations[k] == node
      {
        if locations[i] != node {
          source := Loc(h, locations[i]);
          assert locations[i] in locations && IsSource(before, h, node, source);
          break;
        }
      }
      if source == l {
        assert forall n :: IsCommitted(rows, Loc(h, n)) ==> n in locations && n == node;
        assert forall src :: IsSource(before, h, node, src) ==> IsCommitted(rows, Loc(h, src.node));
        return false;
      }
      if !f.read || source !in objects { return false; }
      var data := objects[source];
      if f.put.Failed? {
        if f.put.landed { objects := objects[l := data]; assert CopiedFrom(old(objects), objects, source, l); }
        return false;
      }
      objects := objects[l := data];
      assert CopiedFrom(old(objects), objects, source, l);
      if !f.repaired { return false; }
      rows := rows[l := Committed];
      return true;
    }

    /** The loop's body: look the object up, and restore it if it is not there. */
    method Check(h: Hash, node: NodeId, f: Faults) returns (v: Verdict)
      requires IsCommitted(rows, Loc(h, node))
      modifies this`rows, this`objects
      ensures OnlyTouches(old(rows), old(objects), rows, objects, node, {h})
      ensures Outcome(old(rows), old(objects), rows, objects, h, node, f, v)
    {
      if f.stat && Loc(h, node) in objects { return Present; }
      var ok := RestoreChunk(h, node, f);
      return if ok then Restored else Unrepairable;
    }

    /** The pass. It fails as a whole only for an unknown node or a failed listing, with no effect. */
    method RepairNode(node: NodeId, listed: bool, faults: Hash -> Faults)
      returns (ok: bool, res: Result, ghost verdicts: map<Hash, Verdict>)
      modifies this`rows, this`objects
      ensures ok <==> node in nodes && listed
      ensures !ok ==> rows == old(rows) && objects == old(objects) && res == Result(0, 0, 0)
      ensures ok ==> Pass(old(rows), old(objects), rows, objects, node, faults, verdicts, CommittedOn(old(rows), node))
      ensures ok ==> Tally(res, verdicts)
    {
      hide Outcome, Pass, Tally, OnlyTouches, CommittedOn, Progress;
      res, verdicts := Result(0, 0, 0), map[];
      if node !in nodes || !listed { return false, res, verdicts; }
      var hashes := CommittedChunksForNode(node);
      PassOverNothing(rows, objects, node, faults);
      NothingVisited(rows, node, hashes);
      for i := 0 to |hashes|
        invariant Progress(rows, node, hashes, i, verdicts)
        invariant Pass(old(rows), old(objects), rows, objects, node, faults, verdicts, verdicts.Keys)
        invariant Tally(res, verdicts)
      {
        var h := hashes[i];
        NextUp(rows, node, hashes, i, verdicts);
        ghost var rows1, objects1 := rows, objects;
        ghost var was := res;
        res := res.(checked := res.checked + 1);
        var v := Check(h, node, faults(h));
        if v == Unrepairable { res := res.(unrepairable := res.unrepairable + 1); }
        if v == Restored { res := res.(restored := res.restored + 1); }
        ProgressExtends(rows1, objects1, rows, objects, node, hashes, i, verdicts, v);
        PassExtends(old(rows), old(objects), rows1, objects1, rows, objects, node, faults, verdicts, verdicts.Keys, h,
          v);
        TallyExtends(was, verdicts, h, v);
        verdicts := verdicts[h := v];
      }
      AllVisited(old(rows), rows, node, hashes, verdicts);
      ok := true;
    }
  }

  lemma PassOverNothing(rows: Rows, objects: Objects, node: NodeId, faults: Hash -> Faults)
    ensures Pass(rows, objects, rows, objects, node, faults, map[], {})
    ensures Tally(Result(0, 0, 0), map[])
  {
    var empty: map<Hash, Verdict> := map[];
    forall v ensures Count(empty, v) == 0 {
      assert (set h | h in empty && empty[h] == v) == {};
    }
  }

  /** The first i of the listed chunks have a verdict, and the rows of the others are as they were. */
  ghost predicate Progress(rows: Rows, node: NodeId, hashes: seq<Hash>, i: nat, verdicts: map<Hash, Verdict>) {
    && i <= |hashes|
    && (forall k :: 0 <= k < i ==> hashes[k] in verdicts)
    && (forall k :: i <= k < |hashes| ==> hashes[k] !in verdicts && IsCommitted(rows, Loc(hashes[k], node)))
    && (forall h :: h in verdicts ==> h in hashes)
  }

  lemma NothingVisited(rows: Rows, node: NodeId, hashes: seq<Hash>)
    requires forall h :: h in hashes <==> IsCommitted(rows, Loc(h, node))
    ensures Progress(rows, node, hashes, 0, map[])
  {
    assert forall k :: 0 <= k < |hashes| ==> hashes[k] in hashes;
  }

  lemma NextUp(rows: Rows, node: NodeId, hashes: seq<Hash>, i: nat, verdicts: map<Hash, Verdict>)
    requires i < |hashes| && Progress(rows, node, hashes, i, verdicts)
    ensures hashes[i] !in verdicts && IsCommitted(rows, Loc(hashes[i], node))
  {
  }

  lemma ProgressExtends(rows: Rows, objects: Objects, rows': Rows, objects': Objects, node: NodeId,
                        hashes: seq<Hash>, i: nat, verdicts: map<Hash, Verdict>, v: Verdict)
    requires i < |hashes| && Progress(rows, node, hashes, i, verdicts)
    requires OnlyTouches(rows, objects, rows', objects', node, {hashes[i]})
    requires forall k :: i < k < |hashes| ==> hashes[k] != hashes[i]
    ensures Progress(rows', node, hashes, i + 1, verdicts[hashes[i] := v])
    ensures verdicts[hashes[i] := v].Keys == verdicts.Keys + {hashes[i]}
  {
  }

  lemma AllVisited(before: Rows, rows: Rows, node: NodeId, hashes: seq<Hash>, verdicts: map<Hash, Verdict>)
    requires forall h :: h in hashes <==> IsCommitted(before, Loc(h, node))
    requires Progress(rows, node, hashes, |hashes|, verdicts)
    ensures verdicts.Keys == CommittedOn(before, node)
  {
    forall h ensures h in CommittedOn(before, node) <==> h in verdicts {
      if h in hashes { assert Loc(h, node).hash == h; }
    }
  }

  // ---------------------------------------------------------------- what a pass achieves

  /** A row of the node that started committed and still claims to be is right, with one exception
      and no other: its object was gone and the write that degrades the row failed. */
  lemma CommittedRowsAreTrue(rows: Rows, objects: Objects, rows': Rows, objects': Objects, node: NodeId,
                             faults: Hash -> Faults, verdicts: map<Hash, Verdict>, h: Hash)
    requires Pass(rows, objects, rows', objects', node, faults, verdicts, CommittedOn(rows, node))
    requires h in CommittedOn(rows, node)
    ensures IsCommitted(rows', Loc(h, node)) && Loc(h, node) !in objects'
      <==> Loc(h, node) !in objects && !faults(h).degrade
  {
    assert Outcome(rows, objects, rows', objects', h, node, faults(h), verdicts[h]);
  }

  /** Bytes stored under a hash stay the bytes of that hash, no replica disappears, and other nodes
      and rows that were not committed (a degraded one is never looked at again) are left alone. */
  lemma PassKeepsContent(rows: Rows, objects: Objects, rows': Rows, objects': Objects, node: NodeId,
                         faults: Hash -> Faults, verdicts: map<Hash, Verdict>, content: Hash -> seq<int>)
    requires Pass(rows, objects, rows', objects', node, faults, verdicts, CommittedOn(rows, node))
    requires forall l :: l in objects ==> objects[l] == content(l.hash)
    ensures forall l :: l in objects' ==> objects'[l] == content(l.hash)
    ensures objects.Keys <= objects'.Keys
    ensures forall l :: l in rows && (l.node != node || rows[l] == Degraded) ==> l in rows' && rows'[l] == rows[l]
  {
    forall l: Loc
      ensures l in objects ==> l in objects'
      ensures l in objects' ==> objects'[l] == content(l.hash)
    {
      if l.node == node && l.hash in CommittedOn(rows, node) {
        assert Outcome(rows, objects, rows', objects', l.hash, node, faults(l.hash), verdicts[l.hash]);
        assert l == Loc(l.hash, node);
      } else {
        assert SameObject(objects, objects', l);
      }
    }
  }

  /** When no call fails and every chunk of the node has its other replicas, the pass gives the node
      back everything its rows claim. */
  lemma CalmPassRestoresEverything(rows: Rows, objects: Objects, rows': Rows, objects': Objects, node: NodeId,
                                   verdicts: map<Hash, Verdict>, h: Hash)
    requires Pass(rows, objects, rows', objects', node, _ => CALM, verdicts, CommittedOn(rows, node))
    requires IsCommitted(rows, Loc(h, node)) && (Loc(h, node) in objects || Restorable(rows, objects, h, node))
    ensures IsCommitted(rows', Loc(h, node)) && Loc(h, node) in objects' && verdicts[h] != Unrepairable
  {
    assert h in CommittedOn(rows, node) by { assert Loc(h, node).hash == h; }
    assert Outcome(rows, objects, rows', objects', h, node, CALM, verdicts[h]);
  }
}
