/**
 What every step of the drive does to the rows, in their columns alone: exactly when it is accepted, which
 rows it changes and to what, and that everything else stays. What lies below a folder is said by the
 breadcrumb trails, not by the subtree query that the steps use.
 */
module DriveEffects {
  import opened Entities
  import opened FolderForest
  import opened Drive

  // ---------------------------------------------------------------- trails

  /** The trail leads from a root folder down to x, each folder the parent of the next. */
  lemma {:induction false} ChainIsTheTrail(folders: Folders, x: FolderId, rank: map<FolderId, nat>)
    requires Ranked(folders, rank) && x in folders
    ensures var trail := Chain(folders, x, rank);
      && trail != [] && trail[|trail| - 1] == x
      && (forall y :: y in trail ==> y in folders)
      && folders[trail[0]].parent == None
      && forall i :: 0 < i < |trail| ==> folders[trail[i]].parent == Some(trail[i - 1])
    decreases rank[x]
  {
    if folders[x].parent.Some? {
      assert HasParent(folders, x, folders[x].parent.value);
      ChainIsTheTrail(folders, folders[x].parent.value, rank);
    }
  }

  lemma AncestorsAreTheTrail(folders: Folders, x: FolderId)
    requires Forest(folders) && x in folders
    ensures var trail := Ancestors(folders, x);
      && trail != [] && trail[|trail| - 1] == x
      && (forall y :: y in trail ==> y in folders)
      && folders[trail[0]].parent == None
      && forall i :: 0 < i < |trail| ==> folders[trail[i]].parent == Some(trail[i - 1])
  {
    ChainIsTheTrail(folders, x, RankOf(folders));
  }

  /** A trail that does not pass through id does not change with the row of id. */
  lemma {:induction false} ChainElsewhere(folders: Folders, folders': Folders, id: FolderId, x: FolderId,
                                          rank: map<FolderId, nat>, rank': map<FolderId, nat>)
    requires Ranked(folders, rank) && Ranked(folders', rank') && folders'.Keys == folders.Keys
    requires forall y :: y in folders && y != id ==> folders'[y] == folders[y]
    requires id !in Chain(folders, x, rank)
    ensures Chain(folders', x, rank') == Chain(folders, x, rank)
    decreases if x in folders then rank[x] + 1 else 0
  {
    assert x in folders'.Keys <==> x in folders.Keys;
    if x in folders && folders[x].parent.Some? {
      assert HasParent(folders, x, folders[x].parent.value);
      ChainElsewhere(folders, folders', id, folders[x].parent.value, rank, rank');
    }
  }

  // ---------------------------------------------------------------- folders

  lemma {:induction false} CreateFolderAddsIff(d: Drive, id: FolderId, org: OrgId, parent: Option<FolderId>)
    requires Forest(d.folders)
    ensures var t := Step(d, CreateFolder(id, org, parent));
      if && id !in d.folders && org in d.usage
         && (parent.Some? ==> && parent.value in d.folders && d.folders[parent.value].deletedAt == None
                              && d.folders[parent.value].org == org)
      then t == d.(folders := d.folders[id := Folder(org, parent, None)])
      else t == d
  {
  }

  /** A move writes the parent, and nothing else, exactly when the folder is live and the target, if
      there is one, is live, in the same organization, and has the folder nowhere on its trail. */
  lemma MoveFolderWritesIff(d: Drive, id: FolderId, parent: Option<FolderId>)
    requires Forest(d.folders)
    ensures var t := Step(d, MoveFolder(id, parent));
      if && id in d.folders && d.folders[id].deletedAt == None
         && (parent.Some? ==> && parent.value in d.folders && d.folders[parent.value].deletedAt == None
                              && d.folders[parent.value].org == d.folders[id].org
                              && id !in Ancestors(d.folders, parent.value))
      then t == d.(folders := d.folders[id := d.folders[id].(parent := parent)])
      else t == d
  {
    if parent.Some? {
      QueriesAgree(d.folders, id, parent.value);
      SubtreeClosed(d.folders, id);
    }
  }

  /** After a move the breadcrumbs of the folder are those of its target and then itself. */
  lemma MovedTrail(d: Drive, id: FolderId, parent: Option<FolderId>)
    requires Forest(d.folders) && Step(d, MoveFolder(id, parent)) != d
    ensures var t := Step(d, MoveFolder(id, parent));
      && Forest(t.folders)
      && Ancestors(t.folders, id) == (if parent.Some? then Ancestors(d.folders, parent.value) else []) + [id]
  {
    var t := Step(d, MoveFolder(id, parent));
    MoveFolderWritesIff(d, id, parent);
    if parent.Some? { QueriesAgree(d.folders, id, parent.value); }
    MoveKeepsForest(d.folders, id, parent);
    if parent.Some? {
      assert HasParent(t.folders, id, parent.value);
      ChainElsewhere(d.folders, t.folders, id, parent.value, RankOf(d.folders), RankOf(t.folders));
    }
  }

  /** Trashing stamps the live folders and files whose trail passes through id, and keeps earlier stamps. */
  lemma TrashFolderStamps(d: Drive, id: FolderId)
    requires Forest(d.folders)
    ensures var t := Step(d, TrashFolder(id));
      && t == d.(folders := t.folders, files := t.files)
      && t.folders.Keys == d.folders.Keys && t.files.Keys == d.files.Keys
      && (forall x :: x in d.folders ==> t.folders[x] == d.folders[x].(deletedAt :=
            if d.folders[x].deletedAt == None && id in Ancestors(d.folders, x) then Some(d.now)
            else d.folders[x].deletedAt))
      && (forall f :: f in d.files ==> t.files[f] == d.files[f].(deletedAt :=
            if d.files[f].deletedAt == None && id in Ancestors(d.folders, d.files[f].folder) then Some(d.now)
            else d.files[f].deletedAt))
  {
    BelowIsOnTrail(d.folders, id);
    hide Descendants, Ancestors, Forest;
  }

  /** Restoring clears the stamps of all folders and files whose trail passes through id. */
  lemma RestoreFolderClears(d: Drive, id: FolderId)
    requires Forest(d.folders)
    ensures var t := Step(d, RestoreFolder(id));
      && t == d.(folders := t.folders, files := t.files)
      && t.folders == (map x | x in d.folders ::
           if id in Ancestors(d.folders, x) then d.folders[x].(deletedAt := None) else d.folders[x])
      && t.files == (map f | f in d.files ::
           if id in Ancestors(d.folders, d.files[f].folder) then d.files[f].(deletedAt := None) else d.files[f])
  {
    BelowIsOnTrail(d.folders, id);
    hide Descendants, Ancestors, Forest;
  }

  lemma BelowIsOnTrail(folders: Folders, id: FolderId)
    requires Forest(folders)
    ensures forall x :: x in Descendants(folders, id) <==> id in Ancestors(folders, x)
  {
    forall x ensures x in Descendants(folders, id) <==> id in Ancestors(folders, x) {
      QueriesAgree(folders, id, x);
    }
  }

  /** A folder purge goes through exactly when nothing on the trails through id is live and the counter covers
      the freed bytes, and then deletes all that is there, and only that. */
  lemma PurgeFolderDeletesIff(d: Drive, id: FolderId, below: set<FolderId>, gone: set<FileId>)
    requires Forest(d.folders)
    requires below == set x | x in d.folders && id in Ancestors(d.folders, x)
    requires gone == set f | f in d.files && id in Ancestors(d.folders, d.files[f].folder)
    ensures Step(d, PurgeFolder(id)) ==
      if && id in d.folders
         && (forall x :: x in below ==> d.folders[x].deletedAt.Some?)
         && (forall f :: f in gone ==> d.files[f].deletedAt.Some?)
         && (Freed(d, gone) <= 0
             || (d.folders[id].org in d.usage && d.usage[d.folders[id].org] >= Freed(d, gone)))
      then d.(folders := d.folders - below, files := d.files - gone,
              usage := if Freed(d, gone) <= 0 then d.usage
                       else d.usage[d.folders[id].org := d.usage[d.folders[id].org] - Freed(d, gone)])
      else d
  {
    BelowIsOnTrail(d.folders, id);
    SubtreeClosed(d.folders, id);
    assert below == Descendants(d.folders, id);
    hide Descendants, Ancestors, Forest, Freed, Purgeable;
    assert FilesUnder(d, below) == gone;
    PurgeableIff(d, id);
    PurgeFolderSteps(d, id, below, gone);
  }

  lemma PurgeFolderSteps(d: Drive, id: FolderId, below: set<FolderId>, gone: set<FileId>)
    requires Forest(d.folders) && below == Descendants(d.folders, id) && gone == FilesUnder(d, below)
    ensures Step(d, PurgeFolder(id)) ==
      if Purgeable(d, id) && (Freed(d, gone) <= 0 ||
          (d.folders[id].org in d.usage && d.usage[d.folders[id].org] >= Freed(d, gone)))
      then d.(folders := d.folders - below, files := d.files - gone,
              usage := if Freed(d, gone) <= 0 then d.usage
                       else d.usage[d.folders[id].org := d.usage[d.folders[id].org] - Freed(d, gone)])
      else d
  {
    if id in d.folders { CascadeIsSubtree(d.folders, id); }
    hide Descendants, Forest, Cascade, Freed, FilesUnder;
  }

  lemma PurgeableIff(d: Drive, id: FolderId)
    requires Forest(d.folders)
    ensures Purgeable(d, id) <==>
      && id in d.folders
      && (forall x :: x in d.folders && id in Ancestors(d.folders, x) ==> d.folders[x].deletedAt.Some?)
      && (forall f :: f in d.files && id in Ancestors(d.folders, d.files[f].folder) ==> d.files[f].deletedAt.Some?)
  {
    BelowIsOnTrail(d.folders, id);
    SubtreeClosed(d.folders, id);
    hide Descendants, Ancestors, Forest;
  }

  // ---------------------------------------------------------------- files

  lemma {:induction false} CreateFileAddsIff(d: Drive, f: FileId, org: OrgId, folder: FolderId, size: int)
    requires Forest(d.folders)
    ensures var t := Step(d, CreateFile(f, org, folder, size));
      if && f !in d.files && folder in d.folders && d.folders[folder].org == org
         && org in d.usage && d.usage[org] + size >= 0
      then t == d.(files := d.files[f := File(org, folder, None, [size])], usage := d.usage[org := d.usage[org] + size])
      else t == d
  {
  }

  lemma {:induction false} AddVersionAppendsIff(d: Drive, f: FileId, org: OrgId, size: int)
    requires Forest(d.folders)
    ensures var t := Step(d, AddVersion(f, org, size));
      if f in d.files && d.files[f].org == org && org in d.usage && d.usage[org] + size >= 0
      then t == d.(files := d.files[f := File(org, d.files[f].folder, d.files[f].deletedAt,
                                              d.files[f].versions + [size])],
                   usage := d.usage[org := d.usage[org] + size])
      else t == d
  {
  }

  lemma {:induction false} MoveFileWritesIff(d: Drive, f: FileId, folder: FolderId)
    requires Forest(d.folders)
    ensures var t := Step(d, MoveFile(f, folder));
      if && f in d.files && d.files[f].deletedAt == None
         && folder in d.folders && d.folders[folder].deletedAt == None && d.folders[folder].org == d.files[f].org
      then t == d.(files := d.files[f := d.files[f].(folder := folder)])
      else t == d
  {
  }

  /** Trashing twice keeps the first stamp; restoring clears it. */
  lemma {:induction false} TrashAndRestoreFile(d: Drive, f: FileId)
    requires Forest(d.folders) && f in d.files
    ensures Step(d, TrashFile(f)) == d.(files := d.files[f := d.files[f].(deletedAt :=
              if d.files[f].deletedAt == None then Some(d.now) else d.files[f].deletedAt)])
    ensures Step(d, RestoreFile(f)) == d.(files := d.files[f := d.files[f].(deletedAt := None)])
  {
    assert d.files[f := d.files[f].(deletedAt := d.files[f].deletedAt)] == d.files;
  }

  lemma {:induction false} PurgeFileDeletesIff(d: Drive, f: FileId)
    requires Forest(d.folders)
    ensures var t := Step(d, PurgeFile(f));
      if && f in d.files && d.files[f].deletedAt.Some?
         && d.files[f].org in d.usage && d.usage[d.files[f].org] >= Sum(d.files[f].versions)
      then t == d.(files := d.files - {f},
                   usage := d.usage[d.files[f].org := d.usage[d.files[f].org] - Sum(d.files[f].versions)])
      else t == d
  {
  }

  /** The retention purge goes through as a whole exactly when every counter covers its organization's share,
      and then deletes exactly the files trashed before the cutoff. */
  lemma {:induction false} PurgeExpiredDeletesIff(d: Drive, age: int)
    requires Forest(d.folders)
    ensures var t := Step(d, PurgeExpired(age));
      var gone := set f | f in d.files && d.files[f].deletedAt.Some? && d.files[f].deletedAt.value < d.now - age;
      if forall o :: o in d.usage ==> BytesOf(d.files, gone, o) <= d.usage[o]
      then
        && t == d.(files := t.files, usage := t.usage)
        && t.files == d.files - gone
        && t.usage == map o | o in d.usage :: d.usage[o] - BytesOf(d.files, gone, o)
      else t == d
  {
    hide BytesOf, Forest;
    var gone := set f | f in d.files && d.files[f].deletedAt.Some? && d.files[f].deletedAt.value < d.now - age;
    assert Expired(d, age) == gone;
    var usage := map o | o in d.usage :: d.usage[o] - BytesOf(d.files, gone, o);
    assert forall o :: o in d.usage ==> (usage[o] < 0 <==> !(BytesOf(d.files, gone, o) <= d.usage[o]));
  }

  lemma {:induction false} OrgsAndTime(d: Drive, org: OrgId, dt: nat)
    requires Forest(d.folders)
    ensures Step(d, CreateOrg(org)) == if org in d.usage then d else d.(usage := d.usage[org := 0])
    ensures Step(d, Tick(dt)) == d.(now := d.now + dt)
  {
  }
}
