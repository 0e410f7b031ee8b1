/** The `/media` routes: the stored file name and the object key, and the
    metadata operations ordered around object-storage calls that may fail.
    The storage calls are oracles that either succeed or raise. */
module MediaRoutes {
  import opened Outcomes
  import opened Seqs
  import opened Dates
  import opened Schema

  /** The outcome of an upload or delete call on the object store. */
  datatype StorageOutcome = Succeeded | StorageFailed(message: string)

  /** The outcome of presigning a download URL. */
  datatype Presigned = Url(url: string) | PresignFailed(message: string)

  /** The upload response. */
  datatype UploadResponse = UploadResponse(message: string, filename: string)

  // ---------------------------------------------------------------------
  // File names and object keys

  /** The index of the last `c` in `s`, or -1 (Python's `rfind`). */
  function LastIndex(s: string, c: char): (r: int)
    ensures -1 <= r < |s|
    ensures r >= 0 ==> s[r] == c && forall j :: r < j < |s| ==> s[j] != c
    ensures r == -1 ==> forall j :: 0 <= j < |s| ==> s[j] != c
    decreases |s|
  {
    if s == [] then -1
    else if s[|s| - 1] == c then |s| - 1
    else LastIndex(s[..|s| - 1], c)
  }

  /** `os.path.splitext(name)[1]` on POSIX: the suffix from the last '.', when
      that dot comes after the last '/' and some character other than '.'
      precedes it in the last path component; otherwise "". So an extension
      is empty or a final '.'-led suffix of the name with no other '.' and no
      '/', and it is empty when the name has no '.' at all. */
  function Extension(name: string): (ext: string)
    ensures |ext| <= |name| && ext == name[|name| - |ext|..]
    ensures ext != [] ==> ext[0] == '.'
    ensures forall j :: 1 <= j < |ext| ==> ext[j] != '.' && ext[j] != '/'
    ensures (forall j :: 0 <= j < |name| ==> name[j] != '.') ==> ext == []
  {
    var sep := LastIndex(name, '/');
    var dot := LastIndex(name, '.');
    if dot > sep && exists j :: sep + 1 <= j < dot && name[j] != '.' then name[dot..] else ""
  }

  /** `f"{uuid4()}{file_extension}"`. */
  function UniqueFilename(id: Uuid, originalFilename: string): string
  {
    id + Extension(originalFilename)
  }

  /** `f"uploads/{current_user.id}/{filename}"`, the key upload, get and delete use. */
  function ObjectKey(userId: Uuid, filename: string): string
  {
    "uploads/" + userId + "/" + filename
  }

  /** For ids without '/', as UUIDs are, the key names one user's folder and
      one file in it: distinct users or file names never share a key. */
  lemma ObjectKeyDetermines(u1: Uuid, f1: string, u2: Uuid, f2: string)
    requires forall j :: 0 <= j < |u1| ==> u1[j] != '/'
    requires forall j :: 0 <= j < |u2| ==> u2[j] != '/'
    requires ObjectKey(u1, f1) == ObjectKey(u2, f2)
    ensures u1 == u2 && f1 == f2
  {
    var k1 := ObjectKey(u1, f1);
    var k2 := ObjectKey(u2, f2);
    assert k1[8 + |u1|] == '/' && k2[8 + |u2|] == '/';
    assert u1 == k1[8..8 + |u1|] && u2 == k2[8..8 + |u2|];
    assert f1 == k1[9 + |u1|..] && f2 == k2[9 + |u2|..];
  }

  // ---------------------------------------------------------------------
  // POST /media/upload

  /** The metadata row of an upload. `uuid4()` is called twice, once for the
      file name and once for the row id. */
  function UploadedRow(rowId: Uuid, userId: Uuid, uniqueFilename: string, originalFilename: string,
                       category: Option<string>, tags: Option<seq<string>>, now: DateTime,
                       contentType: Option<string>, size: Option<int>): MediaFile
  {
    MediaFile(rowId, userId, uniqueFilename, originalFilename, category, tags, now, contentType, size)
  }

  /** The upload goes first; if it raises, the route answers 500 with the
      error text and writes nothing, otherwise it stores one metadata row and
      returns the unique file name. */
  method UploadFile(db: Store, currentUserId: Uuid, originalFilename: string, contentType: Option<string>,
                    size: Option<int>, category: Option<string>, tags: Option<seq<string>>,
                    nameId: Uuid, rowId: Uuid, now: DateTime, upload: string -> StorageOutcome)
    returns (r: Result<UploadResponse>)
    requires db.Valid()
    modifies db`media
    ensures upload(ObjectKey(currentUserId, UniqueFilename(nameId, originalFilename))).StorageFailed? ==>
      && r == Err(HttpError(500, upload(ObjectKey(currentUserId, UniqueFilename(nameId, originalFilename))).message))
      && db.media == old(db.media)
    ensures upload(ObjectKey(currentUserId, UniqueFilename(nameId, originalFilename))).Succeeded? ==>
      && r == Ok(UploadResponse("File uploaded successfully", UniqueFilename(nameId, originalFilename)))
      && db.media == PutRow(old(db.media), MediaKey,
                            UploadedRow(rowId, currentUserId, UniqueFilename(nameId, originalFilename),
                                        originalFilename, category, tags, now, contentType, size))
    ensures db.Valid()
  {
    var uniqueFilename := UniqueFilename(nameId, originalFilename);
    var outcome := upload(ObjectKey(currentUserId, uniqueFilename));
    if outcome.StorageFailed? {
      return Err(HttpError(500, outcome.message));
    }
    var row := UploadedRow(rowId, currentUserId, uniqueFilename, originalFilename, category, tags, now,
                           contentType, size);
    db.media := PutRow(db.media, MediaKey, row);
    r := Ok(UploadResponse("File uploaded successfully", uniqueFilename));
  }

  // ---------------------------------------------------------------------
  // GET /media/files

  /** The conditions of the listing query. */
  function FileMatches(userId: Uuid, category: Option<string>, tag: Option<string>): MediaFile -> bool
  {
    (m: MediaFile) =>
      && m.userId == userId
      && (GivenText(category) ==> m.category == Some(category.value))
      && (GivenText(tag) ==> m.tags.Some? && tag.value in m.tags.value)
  }

  /** Builds the query and its parameters, then runs it. */
  method ListFiles(table: seq<MediaFile>, currentUserId: Uuid, category: Option<string>, tag: Option<string>)
    returns (query: string, params: seq<string>, rows: seq<MediaFile>)
    ensures params == [currentUserId] + (if GivenText(category) then [category.value] else [])
                      + (if GivenText(tag) then [tag.value] else [])
    ensures query == "SELECT * FROM media_files WHERE user_id = %s"
                     + (if GivenText(category) then " AND category = %s" else "")
                     + (if GivenText(tag) then " AND %s = ANY(tags)" else "")
    ensures rows == Filter(table, FileMatches(currentUserId, category, tag))
  {
    query := "SELECT * FROM media_files WHERE user_id = %s";
    params := [currentUserId];
    if GivenText(category) {
      query := query + " AND category = %s";
      params := params + [category.value];
    }
    if GivenText(tag) {
      query := query + " AND %s = ANY(tags)";
      params := params + [tag.value];
    }
    rows := Filter(table, FileMatches(currentUserId, category, tag));
  }

  /** The listing holds exactly the current user's rows that meet every given
      filter, in table order. */
  lemma ListedFilesAreTheUsers(table: seq<MediaFile>, currentUserId: Uuid, category: Option<string>,
                               tag: Option<string>)
    ensures var rows := Filter(table, FileMatches(currentUserId, category, tag));
      && IsSubsequence(rows, table)
      && (forall i :: 0 <= i < |rows| ==>
            && rows[i] in table
            && rows[i].userId == currentUserId
            && (GivenText(category) ==> rows[i].category == Some(category.value))
            && (GivenText(tag) ==> rows[i].tags.Some? && tag.value in rows[i].tags.value))
      && (forall j :: 0 <= j < |table| && FileMatches(currentUserId, category, tag)(table[j]) ==> table[j] in rows)
  {
    FilterIsSubsequence(table, FileMatches(currentUserId, category, tag));
  }

  // ---------------------------------------------------------------------
  // GET /media/files/{file_id} and DELETE /media/files/{file_id}

  function OwnedFile(fileId: Uuid, userId: Uuid): MediaFile -> bool
  {
    (m: MediaFile) => m.id == fileId && m.userId == userId
  }

  /** `SELECT * FROM media_files WHERE id = %s AND user_id = %s` + `.one()`. */
  function FindOwnedFile(table: seq<MediaFile>, fileId: Uuid, userId: Uuid): Option<MediaFile>
  {
    FirstMatch(table, OwnedFile(fileId, userId))
  }

  /** 404 unless the current user owns a file with that id; otherwise the URL
      presigned for an hour on the file's key, or 500 if presigning raises. */
  function GetFile(table: seq<MediaFile>, fileId: Uuid, currentUserId: Uuid,
                   presign: (string, nat) -> Presigned): (r: Result<string>)
    ensures r.Ok? ==> exists i :: 0 <= i < |table| && table[i].id == fileId && table[i].userId == currentUserId
                                 && presign(ObjectKey(currentUserId, table[i].filename), 3600).Url?
                                 && r.value == presign(ObjectKey(currentUserId, table[i].filename), 3600).url
    ensures (forall i :: 0 <= i < |table| ==> !(table[i].id == fileId && table[i].userId == currentUserId)) ==>
      r == Err(HttpError(404, "File not found"))
    ensures r == Err(HttpError(404, "File not found")) <==> FindOwnedFile(table, fileId, currentUserId).None?
    ensures FindOwnedFile(table, fileId, currentUserId).Some? ==>
      var key := ObjectKey(currentUserId, FindOwnedFile(table, fileId, currentUserId).value.filename);
      && (presign(key, 3600).Url? ==> r == Ok(presign(key, 3600).url))
      && (presign(key, 3600).PresignFailed? ==> r == Err(HttpError(500, presign(key, 3600).message)))
  {
    match FindOwnedFile(table, fileId, currentUserId)
    case None => Err(HttpError(404, "File not found"))
    case Some(file) =>
      match presign(ObjectKey(currentUserId, file.filename), 3600)
      case Url(url) => Ok(url)
      case PresignFailed(message) => Err(HttpError(500, message))
  }

  /** 404 and no change unless the current user owns a file with that id; then
      the object is deleted first: if that raises, 500 and the metadata row
      stays, otherwise every row with that id is removed. */
  method DeleteFile(db: Store, fileId: Uuid, currentUserId: Uuid, delete: string -> StorageOutcome)
    returns (r: Result<string>)
    requires db.Valid()
    modifies db`media
    ensures FindOwnedFile(old(db.media), fileId, currentUserId).None? ==>
      r == Err(HttpError(404, "File not found")) && db.media == old(db.media)
    ensures FindOwnedFile(old(db.media), fileId, currentUserId).Some? ==>
      var key := ObjectKey(currentUserId, FindOwnedFile(old(db.media), fileId, currentUserId).value.filename);
      && (delete(key).StorageFailed? ==>
            r == Err(HttpError(500, delete(key).message)) && db.media == old(db.media))
      && (delete(key).Succeeded? ==>
            r == Ok("File deleted successfully") && db.media == DeleteWhere(old(db.media), KeyEquals(MediaKey, fileId)))
    ensures db.Valid()
  {
    var file := FindOwnedFile(db.media, fileId, currentUserId);
    if file.None? {
      return Err(HttpError(404, "File not found"));
    }
    var outcome := delete(ObjectKey(currentUserId, file.value.filename));
    if outcome.StorageFailed? {
      return Err(HttpError(500, outcome.message));
    }
    DeleteWhereKeepsUnique(db.media, MediaKey, KeyEquals(MediaKey, fileId));
    db.media := DeleteWhere(db.media, KeyEquals(MediaKey, fileId));
    r := Ok("File deleted successfully");
  }

  /** With unique ids, deleting the owned file removes that one row and no
      other: the table shrinks by one and loses exactly that row. */
  lemma DeleteRemovesTheOwnedRow(rows: seq<MediaFile>, fileId: Uuid, currentUserId: Uuid)
    requires UniqueBy(rows, MediaKey)
    requires FindOwnedFile(rows, fileId, currentUserId).Some?
    ensures var after := DeleteWhere(rows, KeyEquals(MediaKey, fileId));
      && |after| == |rows| - 1
      && multiset(after) + multiset{FindOwnedFile(rows, fileId, currentUserId).value} == multiset(rows)
      && (forall i :: 0 <= i < |after| ==> after[i].id != fileId)
  {
    var p := KeyEquals(MediaKey, fileId);
    var file := FindOwnedFile(rows, fileId, currentUserId).value;
    DeleteWhereSplits(rows, p);
    UniqueKeyCount(rows, MediaKey, fileId);
    var selected := Filter(rows, p);
    assert HasKey(rows, MediaKey, fileId) by {
      var i :| 0 <= i < |rows| && rows[i] == file;
    }
    assert |selected| == 1;
    var i :| 0 <= i < |rows| && rows[i] == file;
    assert file in selected;
    assert selected == [file];
  }
}
