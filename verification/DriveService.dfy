/**
 The folder and file repositories as they run: a move with its checks, the retention purge of
 files with its per-organization totals, and the guarded cascade over expired folders. Each is
 proved to take the steps of Drive.
 */
module DriveService {
  import opened Entities
  import opened FolderForest
  import opened Drive
  import opened DriveLedger

  datatype MoveResult = Moved | NotFound | CyclicMove | InvalidParent

  lemma {:induction false} FreedRemoveOne(d: Drive, ids: set<FileId>, f: FileId)
    requires ids <= d.files.Keys && f in ids
    ensures Freed(d, ids) == Sum(d.files[f].versions) + Freed(d, ids - {f})
    decreases |ids|
  {
    var g :| g in ids && Freed(d, ids) == Sum(d.files[g].versions) + Freed(d, ids - {g});
    if g != f {
      FreedRemoveOne(d, ids - {g}, f);
      FreedRemoveOne(d, ids - {f}, g);
      assert ids - {g} - {f} == ids - {f} - {g};
    }
  }

  function Lookup(totals: map<OrgId, int>, o: OrgId): int {
    if o in totals then totals[o] else 0
  }

  /** What a move asks of its target apart from the cycle check: live, and in the same organization. */
  predicate FitParent(d: Drive, id: FolderId, target: FolderId)
    requires id in d.folders
  {
    LiveFolder(d, target) && d.folders[target].org == d.folders[id].org
  }

  /** The retention sweep's candidates. */
  function ExpiredFolders(d: Drive, age: int): set<FolderId> {
    set id | id in d.folders && d.folders[id].deletedAt.Some? && d.folders[id].deletedAt.value < d.now - age
  }

  class Repository {
    var now: int
    var folders: Folders
    var files: map<FileId, File>
    var usage: map<OrgId, int>

    function Snapshot(): Drive
      reads this
    {
      Drive(now, folders, files, usage)
    }

    /** Service.Update with a new parent: the checks in order, then one UPDATE of a live row. */
    method MoveFolder(id: FolderId, parent: Option<FolderId>) returns (r: MoveResult)
      requires Forest(folders) && id in folders
      modifies this`folders
      ensures Snapshot() == DoMoveFolder(old(Snapshot()), id, parent)
      ensures Forest(folders)
      ensures r == InvalidParent <==>
        parent.Some? && parent.value != id && !old(FitParent(Snapshot(), id, parent.value))
      ensures r == CyclicMove <==> parent.Some? && (parent.value == id || old(FitParent(Snapshot(), id, parent.value)))
                                   && id in Ancestors(old(folders), parent.value)
      ensures r == Moved <==> old(LiveFolder(Snapshot(), id)) && (parent.Some? ==>
        old(FitParent(Snapshot(), id, parent.value)) && id !in Ancestors(old(folders), parent.value))
      ensures folders == if r == Moved then old(folders)[id := old(folders)[id].(parent := parent)] else old(folders)
    {
      if parent.Some? {
        var target := parent.value;
        QueriesAgree(folders, id, target);
        SubtreeClosed(folders, id);
        if target == id { return CyclicMove; }
        if !LiveFolder(Snapshot(), target) { return InvalidParent; }
        if folders[target].org != folders[id].org { return InvalidParent; }
        if IsSelfOrDescendant(folders, id, target) { return CyclicMove; }
      }
      if !LiveFolder(Snapshot(), id) { return NotFound; }
      MoveKeepsForest(folders, id, parent);
      folders := folders[id := folders[id].(parent := parent)];
      return Moved;
    }

    /** SELECT SUM(size_bytes) over the files of the subtree. */
    method SumFreed(ids: set<FileId>) returns (freed: int)
      requires ids <= files.Keys
      ensures freed == Freed(Snapshot(), ids)
    {
      freed := 0;
      var todo := ids;
      while todo != {}
        invariant todo <= ids
        invariant freed + Freed(Snapshot(), todo) == Freed(Snapshot(), ids)
      {
        var f :| f in todo;
        FreedRemoveOne(Snapshot(), todo, f);
        freed := freed + Sum(files[f].versions);
        todo := todo - {f};
      }
    }

    /** purgeOneFolderCascade: guard, sum, cascading delete, debit. The debit fails where it would
        violate the CHECK, and then nothing is changed. */
    method PurgeOneFolder(id: FolderId) returns (n: nat, ok: bool)
      requires Placed(Snapshot())
      modifies this`folders, this`files, this`usage
      ensures Snapshot() == DoPurgeFolder(old(Snapshot()), id)
      ensures n == if old(Purgeable(Snapshot(), id)) && ok then 1 else 0
      ensures ok <==> !Overdraws(old(Snapshot()), id)
      ensures n == 1 ==> folders == old(folders) - old(Descendants(folders, id))
    {
      if !Purgeable(Snapshot(), id) { return 0, true; }
      ghost var d := Snapshot();
      var org := folders[id].org;
      var freed := SumFreed(FilesUnder(Snapshot(), Descendants(folders, id)));
      CascadeIsSubtree(folders, id);
      var gone := Cascade(folders, {id});
      if freed > 0 && usage[org] - freed < 0 { return 0, false; } // the CHECK on usage_bytes
      files := files - FilesUnder(Snapshot(), gone);
      folders := folders - gone;
      if freed > 0 { usage := usage[org := usage[org] - freed]; }
      return 1, true;
    }

    /** PurgeExpiredTrash of the folders: list the candidates, then purge one by one, in any order,
        until one fails. A candidate inside another's subtree may be gone by the time it is reached. */
    method PurgeExpiredFolders(age: int) returns (purged: nat, ok: bool, ghost tried: seq<FolderId>)
      requires Placed(Snapshot())
      modifies this`folders, this`files, this`usage
      ensures PurgedInTurn(old(Snapshot()), tried, Snapshot(), purged)
      ensures forall id :: id in tried ==> id in old(folders)
      ensures forall id :: id in tried ==>
        old(folders)[id].deletedAt.Some? && old(folders)[id].deletedAt.value < now - age
      ensures ok ==> forall id :: id in old(folders) && id !in tried ==>
        old(folders)[id].deletedAt == None || old(folders)[id].deletedAt.value >= now - age
      ensures Placed(Snapshot())
      ensures !ok ==>
        exists id :: id in old(ExpiredFolders(Snapshot(), age)) && id !in tried && Overdraws(Snapshot(), id)
      ensures old(Books(Snapshot())) ==> ok && Books(Snapshot())
      ensures forall f :: old(LiveFile(Snapshot(), f)) ==> LiveFile(Snapshot(), f)
    {
      hide Books, Placed, DoPurgeFolder, LiveFile, Overdraws, Purgeable, PurgedInTurn;
      var candidates := ExpiredFolders(Snapshot(), age);
      var todo := candidates;
      purged, tried := 0, [];
      ghost var start := Snapshot();
      TurnStarts(start);
      while todo != {}
        invariant Placed(Snapshot()) && (Books(start) ==> Books(Snapshot()))
        invariant PurgedInTurn(start, tried, Snapshot(), purged)
        invariant todo <= candidates && forall id :: id in tried <==> id in candidates - todo
        invariant forall f :: LiveFile(start, f) ==> LiveFile(Snapshot(), f)
      {
        var id :| id in todo;
        ghost var before, was := Snapshot(), purged;
        PlacedIsForest(before);
        var n;
        n, ok := PurgeOneFolder(id);
        PurgeStep(before, id);
        if !ok {
          OverdrawnStays(before, id);
          return;
        }
        purged := purged + n;
        TurnExtends(start, tried, before, was, id);
        tried := tried + [id];
        todo := todo - {id};
      }
      ok := true;
    }

    /** The GROUP BY org_id of the expired files. */
    method GroupByOrg(ids: set<FileId>) returns (totals: map<OrgId, int>)
      requires ids <= files.Keys
      ensures forall o :: Lookup(totals, o) == BytesOf(files, ids, o)
      ensures forall o :: o in totals ==> exists f :: f in ids && files[f].org == o
    {
      totals := map[];
      var todo := ids;
      while todo != {}
        invariant todo <= ids
        invariant forall o :: Lookup(totals, o) + BytesOf(files, todo, o) == BytesOf(files, ids, o)
        invariant forall o :: o in totals ==> exists f :: f in ids && files[f].org == o
      {
        var f :| f in todo;
        forall o ensures BytesOf(files, todo, o) == BytesIn(files[f], o) + BytesOf(files, todo - {f}, o) {
          BytesRemoveOne(files, todo, o, f);
        }
        var org := files[f].org;
        totals := totals[org := Lookup(totals, org) + Sum(files[f].versions)];
        todo := todo - {f};
      }
    }

    /** PurgeExpiredTrash of the files: totals first, then the delete, then one debit per
        organization. A debit below zero violates the CHECK and rolls everything back. */
    method PurgeExpiredFiles(age: int) returns (purged: nat, ok: bool)
      requires Placed(Snapshot()) && CheckHolds(usage)
      modifies this`files, this`usage
      ensures Snapshot() == DoPurgeExpired(old(Snapshot()), age)
      ensures ok <==> !OverdrawsAny(old(Snapshot()), age)
      ensures purged == |old(files)| - |files| == if ok then |Expired(old(Snapshot()), age)| else 0
      ensures forall f :: f in old(files) && f !in files ==>
        ok && old(files)[f].deletedAt.Some? && old(files)[f].deletedAt.value < now - age
      ensures forall f :: f in files ==>
        && f in old(files) && files[f] == old(files)[f]
        && (ok ==> files[f].deletedAt == None || files[f].deletedAt.value >= now - age)
    {
      hide BytesOf, DoPurgeExpired, OverdrawsAny, Forest, Placed, Expired, Lookup;
      ghost var d := Snapshot();
      var before := usage;
      ExpiredAre(d, age);
      var gone := Expired(Snapshot(), age);
      var totals := GroupByOrg(gone);
      OwnersExist(d, gone, totals.Keys);
      EnoughLeft(d, age, totals);
      ok := Debit(totals);
      if !ok {
        usage := before;
        Overdrawn(d, age, totals);
        return 0, false;
      }
      DebitsMatch(d, age, totals, usage);
      CountDeleted(files, gone);
      files := files - gone;
      return |gone|, true;
    }

    /** The loop over the freed totals: one UPDATE per organization, under the CHECK. */
    method Debit(totals: map<OrgId, int>) returns (ok: bool)
      requires totals.Keys <= usage.Keys && CheckHolds(usage)
      modifies this`usage
      ensures ok <==> forall o :: o in totals ==> old(usage)[o] - totals[o] >= 0
      ensures ok ==> usage.Keys == old(usage).Keys && forall o :: o in usage ==>
        usage[o] == old(usage)[o] - Lookup(totals, o)
    {
      ghost var before := usage;
      var todo := totals.Keys;
      while todo != {}
        invariant todo <= totals.Keys && usage.Keys == before.Keys
        invariant forall o :: o in before ==> usage[o] == before[o] - if o in totals.Keys - todo then totals[o] else 0
        invariant forall o :: o in totals.Keys - todo ==> before[o] - totals[o] >= 0
      {
        var o :| o in todo;
        if usage[o] - totals[o] < 0 { return false; }
        usage := usage[o := usage[o] - totals[o]];
        todo := todo - {o};
      }
      return true;
    }
  }

  /** The cascade would debit more than its organization has left. */
  ghost predicate Overdraws(d: Drive, id: FolderId)
    requires Placed(d)
  {
    Purgeable(d, id) &&
    var freed := Freed(d, FilesUnder(d, Descendants(d.folders, id)));
    freed > 0 && d.usage[d.folders[id].org] - freed < 0
  }

  /** d' is what purging the folders of ids, one after the other, makes of d; n of them went. */
  ghost predicate PurgedInTurn(d: Drive, ids: seq<FolderId>, d': Drive, n: int) {
    if ids == [] then d == d' && n == 0
    else exists mid: Drive ::
      && Forest(mid.folders) && d' == DoPurgeFolder(mid, ids[|ids| - 1])
      && PurgedInTurn(d, ids[..|ids| - 1], mid, n - if Purgeable(mid, ids[|ids| - 1]) then 1 else 0)
  }

  lemma TurnStarts(d: Drive)
    ensures PurgedInTurn(d, [], d, 0)
  {
  }

  lemma TurnExtends(d: Drive, ids: seq<FolderId>, mid: Drive, m: int, id: FolderId)
    requires Forest(mid.folders) && PurgedInTurn(d, ids, mid, m)
    ensures PurgedInTurn(d, ids + [id], DoPurgeFolder(mid, id), m + if Purgeable(mid, id) then 1 else 0)
  {
    hide DoPurgeFolder, Purgeable, Forest;
    assert (ids + [id])[..|ids|] == ids;
  }

  lemma PlacedIsForest(d: Drive)
    requires Placed(d)
    ensures Forest(d.folders)
  {
  }

  /** With the books right the debit never fails. */
  lemma PurgeStep(d: Drive, id: FolderId)
    requires Placed(d)
    ensures Placed(DoPurgeFolder(d, id))
    ensures Books(d) ==> Books(DoPurgeFolder(d, id)) && !Overdraws(d, id)
    ensures forall f :: LiveFile(d, f) ==> LiveFile(DoPurgeFolder(d, id), f)
  {
    hide Ledger, NonNegativeSizes, Purgeable;
    StepKeepsPlaced(d, PurgeFolder(id));
    StepSparesLive(d, PurgeFolder(id));
    if Books(d) {
      StepKeepsBooks(d, PurgeFolder(id));
      NeverOverdraws(d, id);
    }
  }

  lemma NeverOverdraws(d: Drive, id: FolderId)
    requires Books(d)
    ensures !Overdraws(d, id)
  {
    if Purgeable(d, id) {
      var org := d.folders[id].org;
      SubtreeClosed(d.folders, id);
      var gone := FilesUnder(d, Descendants(d.folders, id));
      FreedIsBytes(d, gone, org);
      BytesSplit(d.files, d.files.Keys, gone, org);
      StoredNonNegative(d, d.files.Keys - gone, org);
    }
  }

  lemma OverdrawnStays(d: Drive, id: FolderId)
    requires Placed(d) && Overdraws(d, id)
    ensures DoPurgeFolder(d, id) == d
  {
    CascadeIsSubtree(d.folders, id);
  }

  /** Some organization has less left than its expired files are charged for. */
  ghost predicate OverdrawsAny(d: Drive, age: int) {
    exists o :: o in d.usage && d.usage[o] < BytesOf(d.files, Expired(d, age), o)
  }

  lemma ExpiredAre(d: Drive, age: int)
    ensures Expired(d, age) <= d.files.Keys
    ensures forall f :: f in Expired(d, age) ==> d.files[f].deletedAt.Some? && d.files[f].deletedAt.value < d.now - age
    ensures forall f :: f in d.files && f !in Expired(d, age) ==>
      d.files[f].deletedAt == None || d.files[f].deletedAt.value >= d.now - age
  {
  }

  lemma OwnersExist(d: Drive, ids: set<FileId>, orgs: set<OrgId>)
    requires Placed(d) && ids <= d.files.Keys && forall o :: o in orgs ==> exists f :: f in ids && d.files[f].org == o
    ensures orgs <= d.usage.Keys
  {
  }

  lemma EnoughLeft(d: Drive, age: int, totals: map<OrgId, int>)
    requires CheckHolds(d.usage) && totals.Keys <= d.usage.Keys
    requires forall o :: Lookup(totals, o) == BytesOf(d.files, Expired(d, age), o)
    ensures (forall o :: o in totals ==> d.usage[o] - totals[o] >= 0) <==> !OverdrawsAny(d, age)
  {
    forall o | o in d.usage
      ensures d.usage[o] < BytesOf(d.files, Expired(d, age), o) <==> o in totals && d.usage[o] - totals[o] < 0
    {
      assert Lookup(totals, o) == BytesOf(d.files, Expired(d, age), o);
    }
  }

  lemma CountDeleted(files: map<FileId, File>, gone: set<FileId>)
    requires gone <= files.Keys
    ensures |files - gone| == |files| - |gone|
  {
    assert (files - gone).Keys == files.Keys - gone;
    assert |files.Keys| == |files| && |(files - gone).Keys| == |files - gone|;
  }

  lemma Overdrawn(d: Drive, age: int, totals: map<OrgId, int>)
    requires forall o :: Lookup(totals, o) == BytesOf(d.files, Expired(d, age), o)
    requires exists o :: o in totals && o in d.usage && d.usage[o] - totals[o] < 0
    ensures DoPurgeExpired(d, age) == d
  {
    var o :| o in totals && o in d.usage && d.usage[o] - totals[o] < 0;
    assert Lookup(totals, o) == BytesOf(d.files, Expired(d, age), o);
    var usage' := map p | p in d.usage :: d.usage[p] - BytesOf(d.files, Expired(d, age), p);
    assert o in usage' && usage'[o] < 0;
  }

  lemma DebitsMatch(d: Drive, age: int, totals: map<OrgId, int>, usage: map<OrgId, int>)
    requires usage.Keys == d.usage.Keys && CheckHolds(d.usage)
    requires forall o :: Lookup(totals, o) == BytesOf(d.files, Expired(d, age), o)
    requires forall o :: o in usage ==> usage[o] == d.usage[o] - Lookup(totals, o)
    requires forall o :: o in totals && o in d.usage ==> d.usage[o] - totals[o] >= 0
    ensures DoPurgeExpired(d, age) == d.(files := d.files - Expired(d, age), usage := usage)
  {
    var usage' := map o | o in d.usage :: d.usage[o] - BytesOf(d.files, Expired(d, age), o);
    forall o | o in d.usage ensures usage'[o] == usage[o] >= 0 {
      assert o in usage.Keys && Lookup(totals, o) == BytesOf(d.files, Expired(d, age), o);
    }
    assert usage' == usage;
  }
}
