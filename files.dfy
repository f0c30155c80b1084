/** The file-record endpoints of `/api/files`: list (GET), create (POST),
    rename or move (PUT) and delete (DELETE). The bytes themselves live in an
    external media store; these handlers only keep the records. */
module FileRoutes {
  import opened Base
  import opened Seqs
  import opened JsText
  import opened Store

  datatype Listing = Listing(status: nat, items: seq<Doc<FileDoc>>)

  /** `param === 'null' || !param ? null : param` on the `folderId` parameter. */
  function QueryFolder(param: Option<string>): Option<Id> {
    if param.None? || param.value == "" || param.value == "null" then None else param
  }

  function CreatedAt(d: Doc<FileDoc>): int { d.body.createdAt }

  /** GET: the caller's files in the requested folder, newest first. */
  function ListFiles(caller: Option<Id>, folderParam: Option<string>, files: Collection<FileDoc>): (r: Listing)
    requires files.Valid()
    ensures caller.None? ==> r == Listing(Unauthorized, [])
    ensures caller.Some? ==> r.status == Ok
    ensures caller.Some? ==> forall d :: d in r.items <==>
              (d.id in files.docs && d.body == files.docs[d.id]
               && d.body.userId == caller.value && d.body.folderId == QueryFolder(folderParam))
    ensures Distinct(r.items)
    ensures Descending(r.items, CreatedAt)
  {
    if caller.None? then Listing(Unauthorized, [])
    else
      var user, folder := caller.value, QueryFolder(folderParam);
      Listing(Ok, files.FindSorted((id, f: FileDoc) => f.userId == user && f.folderId == folder, CreatedAt))
  }

  /** The fields of a POST body. `folderId` is `None` when it is absent or null. */
  datatype NewFile = NewFile(name: JsValue, originalName: JsValue, mime: JsValue, size: JsValue,
                             folderId: Option<Id>, url: JsValue, publicId: JsValue)

  /** The five fields the handler insists on are all truthy. */
  predicate Complete(body: NewFile) {
    Truthy(body.name) && Truthy(body.originalName) && Truthy(body.mime)
    && Truthy(body.size) && Truthy(body.url)
  }

  /** POST: records an uploaded file. `size` is stored as `parseInt(size)` and
      a falsy `folderId` as null. The folder id is looked up, and stored, in
      its canonical spelling. */
  method CreateFile(db: Db, caller: Option<Id>, body: NewFile, now: int, freshId: Id)
    returns (status: nat, created: Option<Doc<FileDoc>>)
    requires db.Valid()
    requires freshId !in db.files.docs && Canon(freshId) == freshId
    modifies db
    ensures db.Valid()
    ensures db.folders == old(db.folders) && db.users == old(db.users)
    ensures caller.None? ==> status == Unauthorized
    ensures caller.Some? && !Complete(body) ==> status == BadRequest
    ensures caller.Some? && Complete(body) && Present(body.folderId)
            && !OwnsFolder(db.folders.docs, caller.value, Canon(body.folderId.value))
            ==> status == NotFound
    ensures status == Created <==>
              (caller.Some? && Complete(body)
               && (Present(body.folderId) ==> OwnsFolder(db.folders.docs, caller.value, Canon(body.folderId.value))))
    ensures status != Created ==> created.None? && db.files == old(db.files)
    ensures status == Created ==>
              created.Some? && created.value.id == freshId
              && db.files == old(db.files).Insert(freshId, created.value.body)
              && created.value.body == FileDoc(body.name, body.originalName, body.mime, ParseInt(body.size),
                                               CanonOrNull(body.folderId), caller.value, body.url, body.publicId,
                                               now, now)
  {
    created := None;
    if caller.None? {
      status := Unauthorized;
      return;
    }
    var user := caller.value;
    if !Complete(body) {
      status := BadRequest;
      return;
    }
    var folder := CanonOrNull(body.folderId);
    if folder.Some? && !OwnsFolder(db.folders.docs, user, folder.value) {
      status := NotFound;
      return;
    }
    var file := FileDoc(body.name, body.originalName, body.mime, ParseInt(body.size),
                        folder, user, body.url, body.publicId, now, now);
    PlaceFileSound(db.folders.docs, db.files.docs, freshId, file);
    db.files := db.files.Insert(freshId, file);
    status, created := Created, Some(Doc(freshId, file));
  }

  /** The `folderId` of a PUT body: left out (`undefined`), or given, possibly
      as null or "". */
  datatype FolderField = Omitted | Given(target: Option<Id>)

  /** PUT `?id=`: renames a file to its trimmed name and, when a `folderId` is
      given, moves it there (a falsy one moves it to the root). Both ids are
      taken in their canonical spelling. */
  method UpdateFile(db: Db, caller: Option<Id>, id: Option<string>, name: JsValue, folderId: FolderField, now: int)
    returns (status: nat)
    requires db.Valid()
    modifies db
    ensures db.Valid()
    ensures db.folders == old(db.folders) && db.users == old(db.users)
    ensures caller.None? ==> status == Unauthorized
    ensures caller.Some? && !Present(id) ==> status == BadRequest
    ensures caller.Some? && Present(id) && !NonBlankString(name) ==> status == BadRequest
    ensures caller.Some? && Present(id) && NonBlankString(name)
            && !OwnsFile(old(db.files.docs), caller.value, Canon(id.value))
            ==> status == NotFound
    ensures caller.Some? && Present(id) && NonBlankString(name)
            && OwnsFile(old(db.files.docs), caller.value, Canon(id.value))
            && folderId.Given? && Present(folderId.target)
            && !OwnsFolder(db.folders.docs, caller.value, Canon(folderId.target.value))
            ==> status == NotFound
    ensures status == Ok <==>
              (caller.Some? && Present(id) && NonBlankString(name)
               && OwnsFile(old(db.files.docs), caller.value, Canon(id.value))
               && (folderId.Given? && Present(folderId.target)
                   ==> OwnsFolder(db.folders.docs, caller.value, Canon(folderId.target.value))))
    ensures status != Ok ==> db.files == old(db.files)
    ensures status == Ok ==>
              var before := old(db.files.docs)[Canon(id.value)];
              db.files == old(db.files).Replace(Canon(id.value),
                before.(name := Str(Trim(name.s)), updatedAt := now,
                        folderId := if folderId.Given? then CanonOrNull(folderId.target) else before.folderId))
  {
    if caller.None? {
      return Unauthorized;
    }
    var user := caller.value;
    if !Present(id) {
      return BadRequest;
    }
    if !NonBlankString(name) {
      return BadRequest;
    }
    var key := Canon(id.value);
    if !OwnsFile(db.files.docs, user, key) {
      return NotFound;
    }
    var target := if folderId.Given? then CanonOrNull(folderId.target) else None;
    if target.Some? && !OwnsFolder(db.folders.docs, user, target.value) {
      return NotFound;
    }
    var file := db.files.docs[key];
    var updated := file.(name := Str(Trim(name.s)), updatedAt := now);
    if folderId.Given? {
      updated := updated.(folderId := target);
    }
    PlaceFileSound(db.folders.docs, db.files.docs, key, updated);
    db.files := db.files.Replace(key, updated);
    status := Ok;
  }

  /** The folder handling of POST and of a PUT that is given a truthy
      `folderId`, as written: the folder is looked up through
      `new ObjectId`, but the raw text is what the record stores. `None` is
      the 404; otherwise the stored `folderId`. */
  function StoredFolderAsWritten(fs: map<Id, Folder>, user: Id, folderId: Id): (r: Option<Option<Id>>)
    ensures r.Some? <==> OwnsFolder(fs, user, Canon(folderId))
    ensures r.Some? ==> r.value == Some(folderId)
  {
    if OwnsFolder(fs, user, Canon(folderId)) then Some(Some(folderId)) else None
  }

  /** With the folder's id sent in upper case, the handlers as written accept
      it and store a `folderId` that no folder has: the record is then listed
      under no folder. */
  lemma UpperCaseFolderUnplaced()
    ensures var fs := map["ab" := Folder("docs", None, "u", 0, 0, [])];
            var r := StoredFolderAsWritten(fs, "u", "AB");
            var file := FileDoc(Str("a"), Str("a"), Str("text/plain"), Some(1), Some("AB"), "u",
                                Str("https://m"), Str("p"), 0, 0);
            && CanonicalKeys(fs) && r == Some(file.folderId)
            && !FilesPlaced(map["f1" := file], fs)
  {
    var fs := map["ab" := Folder("docs", None, "u", 0, 0, [])];
    assert Canon("AB") == "ab" by { assert Lower("AB")[0] == 'a' && Lower("AB")[1] == 'b'; }
    assert Canon("ab") == "ab" by { assert Lower("ab")[0] == 'a' && Lower("ab")[1] == 'b'; }
    assert "AB" != "ab" by { assert "AB"[0] != "ab"[0]; }
    assert CanonicalKeys(fs);
    assert StoredFolderAsWritten(fs, "u", "AB") == Some(Some("AB"));
    var file := FileDoc(Str("a"), Str("a"), Str("text/plain"), Some(1), Some("AB"), "u",
                        Str("https://m"), Str("p"), 0, 0);
    var files := map["f1" := file];
    assert !OwnsFolder(fs, files["f1"].userId, files["f1"].folderId.value);
  }

  /** DELETE `?id=`: removes one of the caller's file records and hands back
      its media-store id so that the caller can remove the bytes too. */
  method DeleteFile(db: Db, caller: Option<Id>, id: Option<string>) returns (status: nat, publicId: JsValue)
    requires db.Valid()
    modifies db
    ensures db.Valid()
    ensures db.folders == old(db.folders) && db.users == old(db.users)
    ensures caller.None? ==> status == Unauthorized
    ensures caller.Some? && !Present(id) ==> status == BadRequest
    ensures caller.Some? && Present(id) && !OwnsFile(old(db.files.docs), caller.value, Canon(id.value))
            ==> status == NotFound
    ensures status == Ok <==>
              caller.Some? && Present(id) && OwnsFile(old(db.files.docs), caller.value, Canon(id.value))
    ensures status != Ok ==> db.files == old(db.files)
    ensures status == Ok ==>
              publicId == old(db.files.docs)[Canon(id.value)].publicId
              && db.files == old(db.files).Remove(Canon(id.value))
              && db.files.docs == old(db.files.docs) - {Canon(id.value)}
  {
    publicId := Undefined;
    if caller.None? {
      return Unauthorized, publicId;
    }
    if !Present(id) {
      return BadRequest, publicId;
    }
    var key := Canon(id.value);
    if !OwnsFile(db.files.docs, caller.value, key) {
      return NotFound, publicId;
    }
    publicId := db.files.docs[key].publicId;
    db.files := db.files.Remove(key);
    status := Ok;
  }
}
