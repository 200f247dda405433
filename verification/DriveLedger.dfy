/**
 Over every run of the drive: the folders stay a forest, the byte counter of each organization
 stays the sum of what it stores, and nothing live is ever hard-deleted.
 */
module DriveLedger {
  import opened Entities
  import opened FolderForest
  import opened Drive

  /** Rows refer to rows of the same organization. */
  ghost predicate Placed(d: Drive) {
    && Forest(d.folders)
    && (forall x :: x in d.folders ==> d.folders[x].org in d.usage)
    && (forall f :: f in d.files ==>
          d.files[f].folder in d.folders && d.files[f].org == d.folders[d.files[f].folder].org)
  }

  ghost predicate Ledger(d: Drive) {
    forall o :: o in d.usage ==> d.usage[o] == Stored(d, o)
  }

  predicate NonNegativeSizes(d: Drive) {
    forall f :: f in d.files ==> forall i :: 0 <= i < |d.files[f].versions| ==> d.files[f].versions[i] >= 0
  }

  // ---------------------------------------------------------------- the forest, on every run

  lemma StepKeepsPlaced(d: Drive, a: Action)
    requires Placed(d)
    ensures Placed(Step(d, a))
  {
    match a
    case CreateFolder(id, org, parent) => CreateFolderKeepsPlaced(d, id, org, parent);
    case MoveFolder(id, parent) => MoveFolderKeepsPlaced(d, id, parent);
    case TrashFolder(id) => ReshelveKeepsPlaced(d, DoTrashFolder(d, id));
    case RestoreFolder(id) => ReshelveKeepsPlaced(d, DoRestoreFolder(d, id));
    case PurgeFolder(id) => if Purgeable(d, id) { PurgeFolderKeepsPlaced(d, id); }
    case _ => FileStepKeepsPlaced(d, a);
  }

  lemma CreateFolderKeepsPlaced(d: Drive, id: FolderId, org: OrgId, parent: Option<FolderId>)
    requires Placed(d)
    ensures Placed(DoCreateFolder(d, id, org, parent))
  {
    hide Forest;
    if DoCreateFolder(d, id, org, parent) != d { CreateKeepsForest(d.folders, id, org, parent); }
  }

  lemma MoveFolderKeepsPlaced(d: Drive, id: FolderId, parent: Option<FolderId>)
    requires Placed(d)
    ensures Placed(DoMoveFolder(d, id, parent))
  {
    hide Forest;
    if DoMoveFolder(d, id, parent) != d { MoveKeepsForest(d.folders, id, parent); }
  }

  /** The other steps leave the folders alone. */
  lemma FileStepKeepsPlaced(d: Drive, a: Action)
    requires Placed(d)
    requires !a.CreateFolder? && !a.MoveFolder? && !a.TrashFolder? && !a.RestoreFolder? && !a.PurgeFolder?
    ensures Placed(Step(d, a))
  {
    hide Forest;
  }

  /** Trashing and restoring only write deleted_at. */
  lemma ReshelveKeepsPlaced(d: Drive, d': Drive)
    requires Placed(d) && d'.folders.Keys == d.folders.Keys && d'.files.Keys == d.files.Keys && d'.usage == d.usage
    requires forall x :: x in d.folders ==> d'.folders[x] == d.folders[x].(deletedAt := d'.folders[x].deletedAt)
    requires forall f :: f in d.files ==> d'.files[f] == d.files[f].(deletedAt := d'.files[f].deletedAt)
    ensures Placed(d')
  {
    SameShapeKeepsForest(d.folders, d'.folders);
    forall f | f in d'.files ensures f in d.files {
      assert f in d'.files.Keys;
    }
    forall x | x in d'.folders ensures x in d.folders {
      assert x in d'.folders.Keys;
    }
  }

  lemma PurgeFolderKeepsPlaced(d: Drive, id: FolderId)
    requires Placed(d) && Purgeable(d, id)
    ensures Placed(DoPurgeFolder(d, id))
  {
    CascadeIsSubtree(d.folders, id);
    PurgeKeepsForest(d.folders, id);
  }

  // ---------------------------------------------------------------- the counter

  lemma {:induction false} FreedIsBytes(d: Drive, ids: set<FileId>, org: OrgId)
    requires ids <= d.files.Keys && forall f :: f in ids ==> d.files[f].org == org
    ensures Freed(d, ids) == BytesOf(d.files, ids, org)
    decreases |ids|
  {
    if ids != {} {
      var f :| f in ids && Freed(d, ids) == Sum(d.files[f].versions) + Freed(d, ids - {f});
      BytesRemoveOne(d.files, ids, org, f);
      FreedIsBytes(d, ids - {f}, org);
    }
  }

  lemma {:induction false} ForeignBytes(files: map<FileId, File>, ids: set<FileId>, org: OrgId)
    requires ids <= files.Keys && forall f :: f in ids ==> files[f].org != org
    ensures BytesOf(files, ids, org) == 0
    decreases |ids|
  {
    if ids != {} {
      var f :| f in ids;
      BytesRemoveOne(files, ids, org, f);
      ForeignBytes(files, ids - {f}, org);
    }
  }

  /** Deleting files takes exactly their bytes off what is stored. */
  lemma DeletingFiles(d: Drive, d': Drive, gone: set<FileId>, o: OrgId)
    requires gone <= d.files.Keys && d'.files == d.files - gone
    ensures Stored(d', o) == Stored(d, o) - BytesOf(d.files, gone, o)
  {
    BytesSplit(d.files, d.files.Keys, gone, o);
    assert d'.files.Keys == d.files.Keys - gone;
    BytesSame(d.files, d'.files, d'.files.Keys, o);
  }

  /** Changing one row, or adding it, changes what is stored by the difference. */
  lemma WritingFile(d: Drive, d': Drive, f: FileId, file: File, o: OrgId)
    requires d'.files == d.files[f := file]
    ensures Stored(d', o) == Stored(d, o) + BytesIn(file, o) - (if f in d.files then BytesIn(d.files[f], o) else 0)
  {
    BytesRemoveOne(d'.files, d'.files.Keys, o, f);
    var rest := d.files.Keys - {f};
    assert d'.files.Keys - {f} == rest;
    BytesSame(d.files, d'.files, rest, o);
    if f in d.files {
      BytesRemoveOne(d.files, d.files.Keys, o, f);
    } else {
      assert rest == d.files.Keys;
    }
  }

  lemma SumSnoc(sizes: seq<int>, size: int)
    ensures Sum(sizes + [size]) == Sum(sizes) + size
  {
    assert (sizes + [size])[..|sizes|] == sizes;
  }

  lemma CreateFileKeepsLedger(d: Drive, f: FileId, org: OrgId, folder: FolderId, size: int)
    requires Ledger(d)
    ensures Ledger(DoCreateFile(d, f, org, folder, size))
  {
    var d' := DoCreateFile(d, f, org, folder, size);
    if d' != d {
      SumSnoc([], size);
      assert [] + [size] == [size];
      forall o | o in d'.usage ensures d'.usage[o] == Stored(d', o) {
        WritingFile(d, d', f, File(org, folder, None, [size]), o);
      }
    }
  }

  lemma AddVersionKeepsLedger(d: Drive, f: FileId, org: OrgId, size: int)
    requires Ledger(d)
    ensures Ledger(DoAddVersion(d, f, org, size))
  {
    var d' := DoAddVersion(d, f, org, size);
    if d' != d {
      SumSnoc(d.files[f].versions, size);
      forall o | o in d'.usage ensures d'.usage[o] == Stored(d', o) {
        WritingFile(d, d', f, d'.files[f], o);
      }
    }
  }

  lemma PurgeFileKeepsLedger(d: Drive, f: FileId)
    requires Ledger(d)
    ensures Ledger(DoPurgeFile(d, f))
  {
    var d' := DoPurgeFile(d, f);
    if d' != d {
      forall o | o in d'.usage ensures d'.usage[o] == Stored(d', o) {
        DeletingFiles(d, d', {f}, o);
        BytesRemoveOne(d.files, {f}, o, f);
        assert {f} - {f} == {};
      }
    }
  }

  lemma PurgeExpiredKeepsLedger(d: Drive, age: int)
    requires Ledger(d)
    ensures Ledger(DoPurgeExpired(d, age))
  {
    var d' := DoPurgeExpired(d, age);
    if d' != d {
      forall o | o in d'.usage ensures d'.usage[o] == Stored(d', o) {
        DeletingFiles(d, d', Expired(d, age), o);
      }
    }
  }

  /** The cascade debits only when it frees something. With the ledger right before, and the
      purge going through, it is right after exactly when what was freed is not negative: the
      service never validates sizes, and `freedBytes > 0` skips a negative debit. */
  lemma PurgeFolderLedgerIff(d: Drive, id: FolderId)
    requires Placed(d) && Ledger(d) && Purgeable(d, id)
    requires DoPurgeFolder(d, id) != d
    ensures Ledger(DoPurgeFolder(d, id)) <==> Freed(d, FilesUnder(d, Descendants(d.folders, id))) >= 0
  {
    var d' := DoPurgeFolder(d, id);
    var org := d.folders[id].org;
    CascadeIsSubtree(d.folders, id);
    SubtreeClosed(d.folders, id);
    var gone := FilesUnder(d, Descendants(d.folders, id));
    FreedIsBytes(d, gone, org);
    DeletingFiles(d, d', gone, org);
    forall o | o != org && o in d'.usage ensures d'.usage[o] == Stored(d', o) {
      ForeignBytes(d.files, gone, o);
      DeletingFiles(d, d', gone, o);
    }
    assert d'.usage[org] == Stored(d', org) <==> Freed(d, gone) >= 0;
  }

  lemma {:induction false} SumNonNegative(sizes: seq<int>)
    requires forall i :: 0 <= i < |sizes| ==> sizes[i] >= 0
    ensures Sum(sizes) >= 0
  {
    if sizes != [] { SumNonNegative(sizes[..|sizes| - 1]); }
  }

  lemma StoredNonNegative(d: Drive, ids: set<FileId>, org: OrgId)
    requires NonNegativeSizes(d) && ids <= d.files.Keys
    ensures BytesOf(d.files, ids, org) >= 0
  {
    forall f | f in ids ensures BytesIn(d.files[f], org) >= 0 {
      SumNonNegative(d.files[f].versions);
    }
    BytesNonNegative(d.files, ids, org);
  }

  /** With non-negative sizes the purge always goes through: the CHECK never blocks it. */
  lemma PurgeFolderKeepsLedger(d: Drive, id: FolderId)
    requires Placed(d) && Ledger(d) && NonNegativeSizes(d)
    ensures Ledger(DoPurgeFolder(d, id))
    ensures Purgeable(d, id) ==> DoPurgeFolder(d, id).folders == d.folders - Descendants(d.folders, id)
  {
    if Purgeable(d, id) {
      var org := d.folders[id].org;
      CascadeIsSubtree(d.folders, id);
      SubtreeClosed(d.folders, id);
      var gone := FilesUnder(d, Descendants(d.folders, id));
      FreedIsBytes(d, gone, org);
      StoredNonNegative(d, gone, org);
      BytesSplit(d.files, d.files.Keys, gone, org);
      StoredNonNegative(d, d.files.Keys - gone, org);
      assert id !in DoPurgeFolder(d, id).folders;
      PurgeFolderLedgerIff(d, id);
    }
  }

  lemma FrameLedger(d: Drive, d': Drive)
    requires Ledger(d) && d'.usage == d.usage && d'.files.Keys == d.files.Keys
    requires forall f :: f in d.files ==>
      d'.files[f].org == d.files[f].org && d'.files[f].versions == d.files[f].versions
    ensures Ledger(d')
  {
    forall o | o in d'.usage ensures d'.usage[o] == Stored(d', o) {
      BytesSame(d.files, d'.files, d.files.Keys, o);
    }
  }

  lemma CreateOrgKeepsLedger(d: Drive, org: OrgId)
    requires Placed(d) && Ledger(d)
    ensures Ledger(Step(d, CreateOrg(org)))
  {
    var d' := Step(d, CreateOrg(org));
    if org !in d.usage { ForeignBytes(d.files, d.files.Keys, org); }
    forall o | o in d'.usage ensures d'.usage[o] == Stored(d', o) {
      assert Stored(d', o) == Stored(d, o);
    }
  }

  ghost predicate SizeOk(a: Action) {
    (a.CreateFile? || a.AddVersion?) ==> a.size >= 0
  }

  ghost predicate Books(d: Drive) {
    Placed(d) && Ledger(d) && NonNegativeSizes(d)
  }

  lemma StepKeepsSizes(d: Drive, a: Action)
    requires Forest(d.folders) && NonNegativeSizes(d) && SizeOk(a)
    ensures NonNegativeSizes(Step(d, a))
  {
  }

  /** The one kind of step that makes a counter wrong: a folder purge that frees less than nothing. */
  ghost predicate Drifts(d: Drive, a: Action) {
    a.PurgeFolder? && Forest(d.folders) && Purgeable(d, a.id) &&
      Freed(d, FilesUnder(d, Descendants(d.folders, a.id))) < 0
  }

  /** Whatever the sizes: a step keeps the counters right exactly when it is no such purge. */
  lemma StepLedgerIff(d: Drive, a: Action)
    requires Placed(d) && Ledger(d)
    ensures Ledger(Step(d, a)) <==> !Drifts(d, a)
  {
    hide Ledger, Purgeable;
    match a
    case CreateOrg(org) => CreateOrgKeepsLedger(d, org);
    case PurgeFolder(id) => PurgeFolderStepIff(d, id);
    case CreateFile(f, org, folder, size) => CreateFileKeepsLedger(d, f, org, folder, size);
    case AddVersion(f, org, size) => AddVersionKeepsLedger(d, f, org, size);
    case PurgeFile(f) => PurgeFileKeepsLedger(d, f);
    case PurgeExpired(age) => PurgeExpiredKeepsLedger(d, age);
    case _ => ShapeStepKeepsLedger(d, a);
  }

  lemma PurgeFolderStepIff(d: Drive, id: FolderId)
    requires Placed(d) && Ledger(d)
    ensures Ledger(DoPurgeFolder(d, id)) <==> !Drifts(d, PurgeFolder(id))
  {
    hide Ledger;
    if Purgeable(d, id) {
      CascadeIsSubtree(d.folders, id);
      SubtreeClosed(d.folders, id);
      if DoPurgeFolder(d, id) != d { PurgeFolderLedgerIff(d, id); }
    }
  }

  /** Steps that write neither sizes nor counters. */
  lemma ShapeStepKeepsLedger(d: Drive, a: Action)
    requires Forest(d.folders) && Ledger(d)
    requires a.TrashFolder? || a.RestoreFolder? || a.MoveFile? || a.TrashFile? || a.RestoreFile? || a.CreateFolder? ||
      a.MoveFolder? || a.Tick?
    ensures Ledger(Step(d, a))
  {
    hide Ledger, Forest, Descendants;
    FrameLedger(d, Step(d, a));
  }

  /** With non-negative sizes no step drifts. */
  lemma NonNegativeNeverDrifts(d: Drive, a: Action)
    requires Placed(d) && NonNegativeSizes(d)
    ensures !Drifts(d, a)
  {
    if a.PurgeFolder? && Purgeable(d, a.id) {
      SubtreeClosed(d.folders, a.id);
      var gone := FilesUnder(d, Descendants(d.folders, a.id));
      FreedIsBytes(d, gone, d.folders[a.id].org);
      StoredNonNegative(d, gone, d.folders[a.id].org);
    }
  }

  lemma StepKeepsBooks(d: Drive, a: Action)
    requires Books(d) && SizeOk(a)
    ensures Books(Step(d, a))
  {
    hide Ledger, NonNegativeSizes, Drifts;
    StepKeepsPlaced(d, a);
    StepKeepsSizes(d, a);
    NonNegativeNeverDrifts(d, a);
    StepLedgerIff(d, a);
  }

  /** The CHECK constraint on usage_bytes. */
  predicate CheckHolds(usage: map<OrgId, int>) {
    forall o :: o in usage ==> usage[o] >= 0
  }

  lemma StepKeepsCheck(d: Drive, a: Action)
    requires Forest(d.folders) && CheckHolds(d.usage)
    ensures CheckHolds(Step(d, a).usage)
  {
    hide Forest, Descendants, Cascade, Freed, BytesOf;
  }

  // ---------------------------------------------------------------- whole runs

  const EMPTY := Drive(0, map[], map[], map[])

  /** The states a run goes through. Where the folders are no forest a step is not defined, so a run
      may go on anyhow from there; that this never happens is for the theorems to show. */
  ghost predicate IsRun(states: seq<Drive>, acts: seq<Action>) {
    && |states| == |acts| + 1 && states[0] == EMPTY
    && forall i :: 0 <= i < |acts| && Forest(states[i].folders) ==> states[i + 1] == Step(states[i], acts[i])
  }

  lemma {:induction false} RunKeepsPlaced(states: seq<Drive>, acts: seq<Action>, i: nat)
    requires IsRun(states, acts) && i <= |acts|
    ensures Placed(states[i])
  {
    if i == 0 {
      assert Ranked(EMPTY.folders, map[]);
    } else {
      RunKeepsPlaced(states, acts, i - 1);
      StepKeepsPlaced(states[i - 1], acts[i - 1]);
    }
  }

  /** On every run, whatever is created, moved, trashed, restored and purged: the parent relation
      is a forest within one organization per tree, and the two queries agree on it. */
  lemma ForestOnEveryRun(states: seq<Drive>, acts: seq<Action>, f: FolderId, candidate: FolderId)
    requires IsRun(states, acts)
    ensures var d := states[|acts|];
      Forest(d.folders) && (IsSelfOrDescendant(d.folders, f, candidate) <==> f in Ancestors(d.folders, candidate))
  {
    RunKeepsPlaced(states, acts, |acts|);
    QueriesAgree(states[|acts|].folders, f, candidate);
  }

  lemma {:induction false} RunKeepsCheck(states: seq<Drive>, acts: seq<Action>, i: nat)
    requires IsRun(states, acts) && i <= |acts|
    ensures CheckHolds(states[i].usage)
  {
    if i > 0 {
      RunKeepsCheck(states, acts, i - 1);
      RunKeepsPlaced(states, acts, i - 1);
      StepKeepsCheck(states[i - 1], acts[i - 1]);
    }
  }

  ghost predicate NoDrift(states: seq<Drive>, acts: seq<Action>)
    requires |states| > |acts|
  {
    forall i :: 0 <= i < |acts| ==> !Drifts(states[i], acts[i])
  }

  lemma {:induction false} RunKeepsLedger(states: seq<Drive>, acts: seq<Action>, i: nat)
    requires IsRun(states, acts) && i <= |acts|
    requires NoDrift(states, acts)
    ensures Ledger(states[i])
  {
    hide Ledger, Drifts;
    if i == 0 {
      EmptyLedger();
    } else {
      RunKeepsLedger(states, acts, i - 1);
      RunKeepsPlaced(states, acts, i - 1);
      StepLedgerIff(states[i - 1], acts[i - 1]);
    }
  }

  lemma EmptyLedger()
    ensures Ledger(EMPTY)
  {
  }

  /** The counters are right in all states of a run exactly when no step of it drifts, for any sizes. */
  lemma LedgerHoldsIffNoDrift(states: seq<Drive>, acts: seq<Action>)
    requires IsRun(states, acts)
    ensures (forall i :: 0 <= i < |states| ==> Ledger(states[i])) <==> NoDrift(states, acts)
  {
    hide Ledger, Drifts;
    if NoDrift(states, acts) {
      forall i | 0 <= i < |states| ensures Ledger(states[i]) { RunKeepsLedger(states, acts, i); }
    } else {
      var i :| 0 <= i < |acts| && Drifts(states[i], acts[i]);
      RunKeepsPlaced(states, acts, i);
      if Ledger(states[i]) {
        StepLedgerIff(states[i], acts[i]);
        assert !Ledger(states[i + 1]);
      }
    }
  }

  lemma {:induction false} RunKeepsSizes(states: seq<Drive>, acts: seq<Action>, i: nat)
    requires IsRun(states, acts) && i <= |acts| && forall j :: 0 <= j < |acts| ==> SizeOk(acts[j])
    ensures NonNegativeSizes(states[i])
  {
    if i > 0 {
      RunKeepsSizes(states, acts, i - 1);
      RunKeepsPlaced(states, acts, i - 1);
      StepKeepsSizes(states[i - 1], acts[i - 1]);
    }
  }

  /** Runs that only ever add versions of non-negative size never drift. */
  lemma NonNegativeRunsNeverDrift(states: seq<Drive>, acts: seq<Action>)
    requires IsRun(states, acts) && forall j :: 0 <= j < |acts| ==> SizeOk(acts[j])
    ensures NoDrift(states, acts)
  {
    hide Drifts, NonNegativeSizes;
    forall i | 0 <= i < |acts| ensures !Drifts(states[i], acts[i]) {
      RunKeepsSizes(states, acts, i);
      RunKeepsPlaced(states, acts, i);
      NonNegativeNeverDrifts(states[i], acts[i]);
    }
  }

  /** On every run without drift the counter is the sum, for every organization, and not negative. */
  lemma CounterIsTheSum(states: seq<Drive>, acts: seq<Action>, org: OrgId)
    requires IsRun(states, acts) && NoDrift(states, acts) && org in states[|acts|].usage
    ensures var d := states[|acts|]; 0 <= d.usage[org] == Stored(d, org)
  {
    RunKeepsLedger(states, acts, |acts|);
    RunKeepsCheck(states, acts, |acts|);
  }

  /** Nothing live is ever hard-deleted, by any step of any run. */
  lemma NothingLiveIsDeleted(states: seq<Drive>, acts: seq<Action>, i: nat)
    requires IsRun(states, acts) && i < |acts|
    ensures forall f :: LiveFile(states[i], f) ==> f in states[i + 1].files
    ensures forall x :: LiveFolder(states[i], x) ==> x in states[i + 1].folders
  {
    RunKeepsPlaced(states, acts, i);
    StepSparesLive(states[i], acts[i]);
  }

  lemma StepSparesLive(d: Drive, a: Action)
    requires Placed(d)
    ensures forall f :: LiveFile(d, f) ==> f in Step(d, a).files
    ensures forall x :: LiveFolder(d, x) ==> x in Step(d, a).folders
  {
    if a.PurgeFolder? { PurgeFolderSparesLive(d, a.id); } else { OtherStepsSpareLive(d, a); }
  }

  lemma PurgeFolderSparesLive(d: Drive, id: FolderId)
    requires Placed(d)
    ensures forall f :: LiveFile(d, f) ==> f in DoPurgeFolder(d, id).files
    ensures forall x :: LiveFolder(d, x) ==> x in DoPurgeFolder(d, id).folders
  {
    if id in d.folders { CascadeIsSubtree(d.folders, id); }
  }

  lemma OtherStepsSpareLive(d: Drive, a: Action)
    requires Forest(d.folders) && !a.PurgeFolder?
    ensures forall f :: LiveFile(d, f) ==> f in Step(d, a).files
    ensures forall x :: LiveFolder(d, x) ==> x in Step(d, a).folders
  {
    hide Forest, Descendants;
  }

  // ---------------------------------------------------------------- quota

  /** checkQuota followed by the insert, with no other completion in between. The limit in force
      is the organization's override or the configured default; a limit of zero or less is none. */
  ghost function Complete(d: Drive, limit: int, a: Action): Drive
    requires Forest(d.folders) && (a.CreateFile? || a.AddVersion?)
  {
    if limit > 0 && a.org in d.usage && d.usage[a.org] + a.size > limit then d else Step(d, a)
  }

  /** What an organization really stores is within its limit after every completion that goes
      through, on every run without drift. */
  lemma QuotaHolds(states: seq<Drive>, acts: seq<Action>, limit: int, a: Action)
    requires IsRun(states, acts) && NoDrift(states, acts)
    requires (a.CreateFile? || a.AddVersion?) && limit > 0 && Forest(states[|acts|].folders)
    requires Complete(states[|acts|], limit, a) != states[|acts|]
    ensures Stored(Complete(states[|acts|], limit, a), a.org) <= limit
  {
    var d := states[|acts|];
    RunKeepsLedger(states, acts, |acts|);
    RunKeepsPlaced(states, acts, |acts|);
    StepLedgerIff(d, a);
    assert Step(d, a).usage[a.org] == d.usage[a.org] + a.size;
  }

  /** And nothing else is refused for its size: of the completions the tables would take, exactly those
      that would bring what is really stored above a positive limit. */
  lemma QuotaRefusesIff(states: seq<Drive>, acts: seq<Action>, limit: int, a: Action)
    requires IsRun(states, acts) && NoDrift(states, acts)
    requires (a.CreateFile? || a.AddVersion?) && Forest(states[|acts|].folders)
    requires Step(states[|acts|], a) != states[|acts|]
    ensures Complete(states[|acts|], limit, a) ==
      if limit > 0 && Stored(states[|acts|], a.org) + a.size > limit then states[|acts|] else Step(states[|acts|], a)
  {
    RunKeepsLedger(states, acts, |acts|);
    hide Forest, Stored, IsRun, NoDrift;
  }

  // ---------------------------------------------------------------- why sizes must not be negative

  const ORG := OrgId("o")
  const HOME := FolderId("home")
  const BIN := FolderId("bin")
  const KEPT := FileId("a")
  const NEGATIVE := FileId("bb")

  const SHELVES: Folders := map[HOME := Folder(ORG, None, None), BIN := Folder(ORG, None, None)]
  const HELD := map[KEPT := File(ORG, HOME, None, [10]), NEGATIVE := File(ORG, BIN, None, [-5])]

  /** One file of size 10, and one of size -5 in a folder that is in the trash: 5 bytes in all. */
  const BALANCED := Drive(0, SHELVES[BIN := Folder(ORG, None, Some(0))],
                          HELD[NEGATIVE := File(ORG, BIN, Some(0), [-5])], map[ORG := 5])

  lemma FlatForest(folders: Folders)
    requires folders.Keys == {HOME, BIN} && forall x :: x in folders ==>
      folders[x] == Folder(ORG, None, folders[x].deletedAt)
    ensures Forest(folders) && Descendants(folders, BIN) == {BIN}
  {
    assert Ranked(folders, map[HOME := 0, BIN := 0]);
    SubtreeClosed(folders, BIN);
    QueriesAgree(folders, BIN, HOME);
    assert Descendants(folders, BIN) == {BIN};
  }

  /** Some run ends in d. */
  ghost predicate Reached(d: Drive) {
    exists states, acts :: IsRun(states, acts) && states[|acts|] == d
  }

  lemma ReachOn(d: Drive, a: Action)
    requires Reached(d)
    ensures Placed(d) && Reached(Step(d, a))
  {
    var states, acts :| IsRun(states, acts) && states[|acts|] == d;
    RunKeepsPlaced(states, acts, |acts|);
    hide Step;
    var states', acts' := states + [Step(d, a)], acts + [a];
    forall i | 0 <= i < |acts'| && Forest(states'[i].folders) ensures states'[i + 1] == Step(states'[i], acts'[i]) {
      if i < |acts| { assert states[i + 1] == Step(states[i], acts[i]); }
    }
    assert IsRun(states', acts') && states'[|acts'|] == Step(d, a);
  }

  lemma ShelvesReached()
    ensures Reached(Drive(0, SHELVES, map[], map[ORG := 0]))
  {
    assert IsRun([EMPTY], []) && [EMPTY][0] == EMPTY;
    hide Reached, Placed, Ledger;
    ReachOn(EMPTY, CreateOrg(ORG));
    var d1 := EMPTY.(usage := map[ORG := 0]);
    ReachOn(d1, CreateFolder(HOME, ORG, None));
    var d2 := d1.(folders := map[HOME := Folder(ORG, None, None)]);
    ReachOn(d2, CreateFolder(BIN, ORG, None));
    assert DoCreateFolder(d2, BIN, ORG, None) == d1.(folders := SHELVES);
  }

  lemma BalancedReached()
    ensures Reached(BALANCED)
  {
    hide Reached, Placed, Ledger, Forest, Descendants;
    var d3 := Drive(0, SHELVES, map[], map[ORG := 0]);
    ShelvesReached();
    ReachOn(d3, CreateFile(KEPT, ORG, HOME, 10));
    var d4 := d3.(files := map[KEPT := File(ORG, HOME, None, [10])], usage := map[ORG := 10]);
    assert DoCreateFile(d3, KEPT, ORG, HOME, 10) == d4;
    ReachOn(d4, CreateFile(NEGATIVE, ORG, BIN, -5));
    var d5 := d3.(files := HELD, usage := map[ORG := 5]);
    assert DoCreateFile(d4, NEGATIVE, ORG, BIN, -5) == d5;
    ReachOn(d5, TrashFolder(BIN));
    TrashBalances(d5);
  }

  lemma TrashBalances(d: Drive)
    requires d == Drive(0, SHELVES, HELD, map[ORG := 5])
    ensures Forest(d.folders) && DoTrashFolder(d, BIN) == BALANCED
  {
    hide Forest, Descendants;
    FlatForest(SHELVES);
    assert DoTrashFolder(d, BIN).folders == BALANCED.folders;
    assert DoTrashFolder(d, BIN).files == BALANCED.files;
  }

  lemma BalancedFrees()
    ensures Forest(BALANCED.folders) && Purgeable(BALANCED, BIN)
    ensures Freed(BALANCED, FilesUnder(BALANCED, Descendants(BALANCED.folders, BIN))) == -5
  {
    FlatForest(BALANCED.folders);
    assert FilesUnder(BALANCED, {BIN}) == {NEGATIVE};
    assert Sum([-5]) == -5;
    FreedIsBytes(BALANCED, {NEGATIVE}, ORG);
    BytesRemoveOne(BALANCED.files, {NEGATIVE}, ORG, NEGATIVE);
    assert {NEGATIVE} - {NEGATIVE} == {};
  }

  lemma BalancedLedger()
    ensures Ledger(BALANCED)
  {
    var files := BALANCED.files;
    assert Sum([10]) == 10 && Sum([-5]) == -5;
    BytesRemoveOne(files, files.Keys, ORG, KEPT);
    assert files.Keys - {KEPT} == {NEGATIVE};
    BytesRemoveOne(files, {NEGATIVE}, ORG, NEGATIVE);
    assert {NEGATIVE} - {NEGATIVE} == {};
  }

  /** Drift happens: a run reaches this drive with its books right, and purging the folder leaves the
      counter at 5 while 10 bytes are stored. */
  lemma NegativeSizeDrifts()
    ensures Reached(BALANCED) && Ledger(BALANCED) && Forest(BALANCED.folders) && Drifts(BALANCED, PurgeFolder(BIN))
    ensures !Ledger(Step(BALANCED, PurgeFolder(BIN)))
  {
    hide Reached, Ledger, Placed, Freed, Purgeable;
    BalancedReached();
    BalancedLedger();
    BalancedFrees();
    ReachOn(BALANCED, PurgeFolder(BIN));
    StepLedgerIff(BALANCED, PurgeFolder(BIN));
  }
}
