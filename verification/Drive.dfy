/**
 Folders, files and versions with trash, purge and the per-organization byte counter
 `organizations.usage_bytes`. Each step is one transaction; a rejected request or a violated
 constraint leaves everything as it was.
 */
module Drive {
  import opened Entities
  import opened FolderForest

  /** A files row with its cascading file_versions rows: the version sizes, in order. */
  datatype File = File(org: OrgId, folder: FolderId, deletedAt: Option<int>, versions: seq<int>)

  datatype Drive = Drive(now: int, folders: Folders, files: map<FileId, File>, usage: map<OrgId, int>)

  // ---------------------------------------------------------------- bytes

  function Sum(sizes: seq<int>): int {
    if sizes == [] then 0 else Sum(sizes[..|sizes| - 1]) + sizes[|sizes| - 1]
  }

  function BytesIn(file: File, org: OrgId): int {
    if file.org == org then Sum(file.versions) else 0
  }

  /** SUM(size_bytes) over the versions of the given files that belong to org. */
  ghost function BytesOf(files: map<FileId, File>, ids: set<FileId>, org: OrgId): int
    requires ids <= files.Keys
  {
    if ids == {} then 0
    else
      var f :| f in ids;
      BytesIn(files[f], org) + BytesOf(files, ids - {f}, org)
  }

  /** All versions of all files of org, the trashed ones included. */
  ghost function Stored(d: Drive, org: OrgId): int {
    BytesOf(d.files, d.files.Keys, org)
  }

  lemma {:induction false} BytesRemoveOne(files: map<FileId, File>, ids: set<FileId>, org: OrgId, f: FileId)
    requires ids <= files.Keys && f in ids
    ensures BytesOf(files, ids, org) == BytesIn(files[f], org) + BytesOf(files, ids - {f}, org)
    decreases |ids|
  {
    var g :| g in ids && BytesOf(files, ids, org) == BytesIn(files[g], org) + BytesOf(files, ids - {g}, org);
    if g != f {
      BytesRemoveOne(files, ids - {g}, org, f);
      BytesRemoveOne(files, ids - {f}, org, g);
      assert ids - {g} - {f} == ids - {f} - {g};
    }
  }

  lemma {:induction false} BytesSplit(files: map<FileId, File>, ids: set<FileId>, part: set<FileId>, org: OrgId)
    requires part <= ids <= files.Keys
    ensures BytesOf(files, ids, org) == BytesOf(files, part, org) + BytesOf(files, ids - part, org)
    decreases |part|
  {
    if part == {} {
      assert ids - part == ids;
    } else {
      var f :| f in part;
      BytesRemoveOne(files, ids, org, f);
      BytesRemoveOne(files, part, org, f);
      BytesSplit(files, ids - {f}, part - {f}, org);
      assert ids - {f} - (part - {f}) == ids - part;
    }
  }

  /** Only the org and the sizes of a file matter. */
  lemma {:induction false} BytesSame(files: map<FileId, File>, files': map<FileId, File>, ids: set<FileId>, org: OrgId)
    requires ids <= files.Keys && ids <= files'.Keys
    requires forall f :: f in ids ==> BytesIn(files[f], org) == BytesIn(files'[f], org)
    ensures BytesOf(files, ids, org) == BytesOf(files', ids, org)
    decreases |ids|
  {
    if ids != {} {
      var f :| f in ids;
      BytesRemoveOne(files, ids, org, f);
      BytesRemoveOne(files', ids, org, f);
      BytesSame(files, files', ids - {f}, org);
    }
  }

  lemma {:induction false} BytesNonNegative(files: map<FileId, File>, ids: set<FileId>, org: OrgId)
    requires ids <= files.Keys
    requires forall f :: f in ids ==> BytesIn(files[f], org) >= 0
    ensures BytesOf(files, ids, org) >= 0
    decreases |ids|
  {
    if ids != {} {
      var f :| f in ids;
      BytesRemoveOne(files, ids, org, f);
      BytesNonNegative(files, ids - {f}, org);
    }
  }

  // ---------------------------------------------------------------- steps

  predicate LiveFolder(d: Drive, id: FolderId) { id in d.folders && d.folders[id].deletedAt == None }
  predicate LiveFile(d: Drive, f: FileId) { f in d.files && d.files[f].deletedAt == None }

  /** The CHECK constraint on usage_bytes rolls a transaction back. */
  function Charged(d: Drive, d': Drive, org: OrgId, delta: int): Drive {
    if org !in d.usage || d.usage[org] + delta < 0 then d
    else d'.(usage := d.usage[org := d.usage[org] + delta])
  }

  function DoCreateFolder(d: Drive, id: FolderId, org: OrgId, parent: Option<FolderId>): Drive {
    if id in d.folders || org !in d.usage then d
    else if parent.Some? && !(LiveFolder(d, parent.value) && d.folders[parent.value].org == org) then d
    else d.(folders := Attach(d.folders, id, org, parent))
  }

  function DoMoveFolder(d: Drive, id: FolderId, parent: Option<FolderId>): Drive
    requires Forest(d.folders)
  {
    if !LiveFolder(d, id) then d
    else if parent.Some? && (parent.value == id || !LiveFolder(d, parent.value)
            || d.folders[parent.value].org != d.folders[id].org
            || IsSelfOrDescendant(d.folders, id, parent.value)) then d
    else d.(folders := d.folders[id := d.folders[id].(parent := parent)])
  }

  /** SoftDeleteCascade and RestoreCascade: the whole subtree, folders and files. */
  function DoTrashFolder(d: Drive, id: FolderId): Drive
    requires Forest(d.folders)
  {
    var below := Descendants(d.folders, id);
    d.(folders := map x | x in d.folders ::
         if x in below && d.folders[x].deletedAt == None then d.folders[x].(deletedAt := Some(d.now)) else d.folders[x],
       files := map f | f in d.files ::
         if d.files[f].folder in below && d.files[f].deletedAt == None then d.files[f].(deletedAt := Some(d.now))
         else d.files[f])
  }

  function DoRestoreFolder(d: Drive, id: FolderId): Drive
    requires Forest(d.folders)
  {
    var below := Descendants(d.folders, id);
    d.(folders := map x | x in d.folders :: if x in below then d.folders[x].(deletedAt := None) else d.folders[x],
       files := map f | f in d.files ::
         if d.files[f].folder in below then d.files[f].(deletedAt := None) else d.files[f])
  }

  function FilesUnder(d: Drive, below: set<FolderId>): set<FileId> {
    set f | f in d.files && d.files[f].folder in below
  }

  /** The guard of purgeOneFolderCascade: nothing live anywhere in the subtree. */
  predicate Purgeable(d: Drive, id: FolderId)
    requires Forest(d.folders)
  {
    && id in d.folders
    && (forall x :: x in Descendants(d.folders, id) ==> !LiveFolder(d, x))
    && (forall f :: f in d.files && d.files[f].folder in Descendants(d.folders, id) ==> !LiveFile(d, f))
  }

  /** The bytes of every file of the subtree, whatever its organization. */
  ghost function Freed(d: Drive, ids: set<FileId>): int
    requires ids <= d.files.Keys
  {
    if ids == {} then 0
    else
      var f :| f in ids;
      Sum(d.files[f].versions) + Freed(d, ids - {f})
  }

  ghost function DoPurgeFolder(d: Drive, id: FolderId): Drive
    requires Forest(d.folders)
  {
    if !Purgeable(d, id) then d else
    var gone := Cascade(d.folders, {id}); // by the foreign keys, not by the guard's query
    var files := FilesUnder(d, gone);
    var freed := Freed(d, FilesUnder(d, Descendants(d.folders, id)));
    var d' := d.(folders := d.folders - gone, files := d.files - files);
    if freed > 0 then Charged(d, d', d.folders[id].org, -freed) else d'
  }

  function DoCreateFile(d: Drive, f: FileId, org: OrgId, folder: FolderId, size: int): Drive {
    if f in d.files || folder !in d.folders || d.folders[folder].org != org then d
    else Charged(d, d.(files := d.files[f := File(org, folder, None, [size])]), org, size)
  }

  function DoAddVersion(d: Drive, f: FileId, org: OrgId, size: int): Drive {
    if f !in d.files || d.files[f].org != org then d
    else Charged(d, d.(files := d.files[f := d.files[f].(versions := d.files[f].versions + [size])]), org, size)
  }

  function DoMoveFile(d: Drive, f: FileId, folder: FolderId): Drive {
    if !LiveFile(d, f) || !LiveFolder(d, folder) || d.folders[folder].org != d.files[f].org then d
    else d.(files := d.files[f := d.files[f].(folder := folder)])
  }

  function DoTrashFile(d: Drive, f: FileId, trash: bool): Drive {
    if f !in d.files then d
    else if trash && d.files[f].deletedAt == None then d.(files := d.files[f := d.files[f].(deletedAt := Some(d.now))])
    else if !trash then d.(files := d.files[f := d.files[f].(deletedAt := None)])
    else d
  }

  function DoPurgeFile(d: Drive, f: FileId): Drive {
    if f !in d.files || d.files[f].deletedAt == None then d
    else Charged(d, d.(files := d.files - {f}), d.files[f].org, -Sum(d.files[f].versions))
  }

  function Expired(d: Drive, age: int): set<FileId> {
    set f | f in d.files && d.files[f].deletedAt.Some? && d.files[f].deletedAt.value < d.now - age
  }

  /** PurgeExpiredTrash of the files: one transaction over all organizations. */
  ghost function DoPurgeExpired(d: Drive, age: int): Drive {
    var gone := Expired(d, age);
    var usage' := map o | o in d.usage :: d.usage[o] - BytesOf(d.files, gone, o);
    if exists o :: o in usage' && usage'[o] < 0 then d
    else d.(files := d.files - gone, usage := usage')
  }

  datatype Action =
    | CreateOrg(org: OrgId)
    | CreateFolder(id: FolderId, org: OrgId, parent: Option<FolderId>)
    | MoveFolder(id: FolderId, parent: Option<FolderId>)
    | TrashFolder(id: FolderId)
    | RestoreFolder(id: FolderId)
    | PurgeFolder(id: FolderId)
    | CreateFile(f: FileId, org: OrgId, folder: FolderId, size: int)
    | AddVersion(f: FileId, org: OrgId, size: int)
    | MoveFile(f: FileId, folder: FolderId)
    | TrashFile(f: FileId)
    | RestoreFile(f: FileId)
    | PurgeFile(f: FileId)
    | PurgeExpired(age: int)
    | Tick(dt: nat)

  ghost function Step(d: Drive, a: Action): Drive
    requires Forest(d.folders)
  {
    match a
    case CreateOrg(org) => if org in d.usage then d else d.(usage := d.usage[org := 0])
    case CreateFolder(id, org, parent) => DoCreateFolder(d, id, org, parent)
    case MoveFolder(id, parent) => DoMoveFolder(d, id, parent)
    case TrashFolder(id) => DoTrashFolder(d, id)
    case RestoreFolder(id) => DoRestoreFolder(d, id)
    case PurgeFolder(id) => DoPurgeFolder(d, id)
    case CreateFile(f, org, folder, size) => DoCreateFile(d, f, org, folder, size)
    case AddVersion(f, org, size) => DoAddVersion(d, f, org, size)
    case MoveFile(f, folder) => DoMoveFile(d, f, folder)
    case TrashFile(f) => DoTrashFile(d, f, true)
    case RestoreFile(f) => DoTrashFile(d, f, false)
    case PurgeFile(f) => DoPurgeFile(d, f)
    case PurgeExpired(age) => DoPurgeExpired(d, age)
    case Tick(dt) => d.(now := d.now + dt)
  }
}
