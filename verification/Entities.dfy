/** The identifiers that the tables and the services share. */
module Entities {
  datatype Option<T> = None | Some(value: T)

  datatype UserId = UserId(id: string)
  datatype OrgId = OrgId(id: string)
  datatype FolderId = FolderId(id: string)
  datatype FileId = FileId(id: string)
  datatype VersionId = VersionId(id: string)
  datatype UploadId = UploadId(id: string)

  datatype NodeId = NodeId(name: string)

  /** A chunk's content hash, in hexadecimal. */
  datatype Hash = Hash(hex: string)
}
