/** The file record of the domain package: the status enumeration, the
    declared file types, and the record itself. */
module FileDomain {
  import opened Primitive

  /** The source's status type is a plain integer type; a stored or passed
      status may hold any integer, named or not. */
  type FileStatus = int

  /** The six named statuses, in declaration order. */
  datatype Status =
    | ClientUploadInProgress
    | UploadedByClient
    | ClientUploadError
    | StorageUploadInProgress
    | UploadedToStorage
    | StorageUploadError

  const Declared: seq<Status> :=
    [ClientUploadInProgress, UploadedByClient, ClientUploadError,
     StorageUploadInProgress, UploadedToStorage, StorageUploadError]

  /** The integer a named status stands for: its position in the declaration
      (the `iota` numbering). */
  function Code(s: Status): (c: FileStatus)
    ensures 0 <= c < |Declared| && Declared[c] == s
  {
    match s
    case ClientUploadInProgress => 0
    case UploadedByClient => 1
    case ClientUploadError => 2
    case StorageUploadInProgress => 3
    case UploadedToStorage => 4
    case StorageUploadError => 5
  }

  /** The named status an integer stands for, if any: the inverse of
      `Code`, undefined on integers no status stands for. */
  function Named(c: FileStatus): (r: Option<Status>)
    ensures r.Some? ==> Code(r.value) == c
    ensures r.None? ==> forall s :: Code(s) != c
  {
    if c == 0 then Some(ClientUploadInProgress)
    else if c == 1 then Some(UploadedByClient)
    else if c == 2 then Some(ClientUploadError)
    else if c == 3 then Some(StorageUploadInProgress)
    else if c == 4 then Some(UploadedToStorage)
    else if c == 5 then Some(StorageUploadError)
    else None
  }

  /** Status -> integer -> status is the identity ... */
  lemma NamedCode(s: Status)
    ensures Named(Code(s)) == Some(s)
  {
  }

  /** ... and integer -> status -> integer is the identity on the six codes,
      so the codes are pairwise distinct. */
  lemma CodeNamed(c: FileStatus)
    requires Named(c).Some?
    ensures Code(Named(c).value) == c
  {
    if c == 0 {
    } else if c == 1 {
    } else if c == 2 {
    } else if c == 3 {
    } else if c == 4 {
    } else {
      assert c == 5;
    }
  }

  /** The declaration lists six distinct statuses. */
  lemma DeclaredDistinct(i: int, j: int)
    requires 0 <= i < |Declared| && 0 <= j < |Declared| && i != j
    ensures Declared[i] != Declared[j]
  {
  }

  /** The zero value of the status type is the first status. */
  lemma ZeroIsClientUploadInProgress()
    ensures Named(0) == Some(ClientUploadInProgress)
  {
  }

  /** The declared file types. The type itself is a plain string type, so a
      record may carry any string. */
  type FileType = string

  const Image: FileType := "image"
  const Document: FileType := "document"
  const Other: FileType := "other"

  lemma FileTypesDistinct()
    ensures Image != Document && Image != Other && Document != Other
  {
  }

  /** One row of the files table. `url` is the empty string while no URL has
      been stored. */
  datatype File = File(
    id: ID,
    createdAt: Time,
    updatedAt: Option<Time>,
    userId: ID,
    fileType: FileType,
    contentType: string,
    name: string,
    size: int,
    status: FileStatus,
    url: string)

  /** Auxiliary, not enforced anywhere in the source: the upload lifecycle a
      reader may expect. Client upload succeeds or fails; a worker
      claims an uploaded file; the storage transfer succeeds or fails. */
  predicate LegalTransition(from: Status, to: Status)
  {
    match from
    case ClientUploadInProgress => to == UploadedByClient || to == ClientUploadError
    case UploadedByClient => to == StorageUploadInProgress
    case StorageUploadInProgress => to == UploadedToStorage || to == StorageUploadError
    case _ => false
  }

  /** A run of the lifecycle: every step is a legal transition. */
  predicate LegalPath(path: seq<Status>)
  {
    forall i :: 0 <= i < |path| - 1 ==> LegalTransition(path[i], path[i + 1])
  }

  /** Under the lifecycle, a file that starts with the client upload reaches
      storage only by passing through UploadedByClient and then
      StorageUploadInProgress. */
  lemma StorageReachedOnlyThroughClaim(path: seq<Status>)
    requires |path| > 0 && LegalPath(path)
    requires path[0] == ClientUploadInProgress && path[|path| - 1] == UploadedToStorage
    ensures exists i, j :: 0 < i < j < |path| - 1 && path[i] == UploadedByClient && path[j] == StorageUploadInProgress
  {
    var n := |path|;
    assert n >= 2;
    // The step into UploadedToStorage comes from StorageUploadInProgress,
    // which in turn can only be entered from UploadedByClient, which can
    // only be entered from ClientUploadInProgress.
    assert LegalTransition(path[n - 2], path[n - 1]);
    assert path[n - 2] == StorageUploadInProgress;
    assert n - 2 > 0;
    assert LegalTransition(path[n - 3], path[n - 2]);
    assert path[n - 3] == UploadedByClient;
    assert n - 3 > 0;
  }
}
