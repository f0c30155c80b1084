/** The folder endpoints of `/api/folders`: list (GET), create (POST),
    rename (PUT) and delete (DELETE), each scoped to the signed-in user.
    `caller` is the session's user id, `None` when there is no session. */
module FolderRoutes {
  import opened Base
  import opened Seqs
  import opened JsText
  import opened Store

  datatype Listing<T> = Listing(status: nat, items: seq<Doc<T>>)

  /** `param === 'null' || !param ? null : param` on a query-string parameter. */
  function QueryParent(param: Option<string>): Option<Id> {
    if param.None? || param.value == "" || param.value == "null" then None else param
  }

  function CreatedAt(d: Doc<Folder>): int { d.body.createdAt }

  /** GET: the caller's folders under the requested parent, newest first. */
  function ListFolders(caller: Option<Id>, parentParam: Option<string>, folders: Collection<Folder>): (r: Listing<Folder>)
    requires folders.Valid()
    ensures caller.None? ==> r == Listing(Unauthorized, [])
    ensures caller.Some? ==> r.status == Ok
    ensures caller.Some? ==> forall d :: d in r.items <==>
              (d.id in folders.docs && d.body == folders.docs[d.id]
               && d.body.userId == caller.value && d.body.parentId == QueryParent(parentParam))
    ensures Distinct(r.items)
    ensures Descending(r.items, CreatedAt)
  {
    if caller.None? then Listing(Unauthorized, [])
    else
      var user, parent := caller.value, QueryParent(parentParam);
      Listing(Ok, folders.FindSorted((id, f: Folder) => f.userId == user && f.parentId == parent, CreatedAt))
  }

  /** POST: validates the name, rejects a duplicate sibling name (409) before
      looking the parent up (404), then inserts the folder with its path. The
      parent id is used in its stored spelling throughout. */
  method CreateFolder(db: Db, caller: Option<Id>, name: JsValue, parentId: Option<Id>, now: int, freshId: Id)
    returns (status: nat, created: Option<Doc<Folder>>)
    requires db.Valid()
    requires freshId !in db.folders.docs && Canon(freshId) == freshId
    modifies db
    ensures db.Valid()
    ensures db.files == old(db.files) && db.users == old(db.users)
    ensures caller.None? ==> status == Unauthorized
    ensures caller.Some? && !NonBlankString(name) ==> status == BadRequest
    ensures caller.Some? && NonBlankString(name)
            && NameTaken(old(db.folders.docs), caller.value, CanonOrNull(parentId), Trim(name.s), None)
            ==> status == Conflict
    ensures caller.Some? && NonBlankString(name)
            && !NameTaken(old(db.folders.docs), caller.value, CanonOrNull(parentId), Trim(name.s), None)
            && Present(parentId) && !OwnsFolder(old(db.folders.docs), caller.value, Canon(parentId.value))
            ==> status == NotFound
    ensures status == Created <==>
              (caller.Some? && NonBlankString(name)
               && !NameTaken(old(db.folders.docs), caller.value, CanonOrNull(parentId), Trim(name.s), None)
               && (Present(parentId) ==> OwnsFolder(old(db.folders.docs), caller.value, Canon(parentId.value))))
    ensures status != Created ==> created.None? && db.folders == old(db.folders)
    ensures status == Created ==>
              created.Some? && created.value.id == freshId
              && db.folders == old(db.folders).Insert(freshId, created.value.body)
              && created.value.body == Folder(Trim(name.s), CanonOrNull(parentId), caller.value, now, now,
                                              if Present(parentId)
                                              then old(db.folders.docs)[Canon(parentId.value)].path
                                                   + [Canon(parentId.value)]
                                              else [])
    ensures status == Created && Present(parentId) ==>
              |created.value.body.path| == |old(db.folders.docs)[Canon(parentId.value)].path| + 1
    ensures status == Created ==> NameTaken(db.folders.docs, caller.value, CanonOrNull(parentId), Trim(name.s), None)
  {
    created := None;
    if caller.None? {
      status := Unauthorized;
      return;
    }
    var user := caller.value;
    if !NonBlankString(name) {
      status := BadRequest;
      return;
    }
    var trimmed := Trim(name.s);
    var parent := CanonOrNull(parentId);
    if NameTaken(db.folders.docs, user, parent, trimmed, None) {
      status := Conflict;
      return;
    }
    var path: seq<Id> := [];
    if parent.Some? {
      if !OwnsFolder(db.folders.docs, user, parent.value) {
        status := NotFound;
        return;
      }
      path := db.folders.docs[parent.value].path + [parent.value];
    }
    var folder := Folder(trimmed, parent, user, now, now, path);
    InsertFolderSound(db.folders.docs, db.files.docs, freshId, folder);
    db.folders := db.folders.Insert(freshId, folder);
    assert db.folders.docs[freshId] == folder;
    status, created := Created, Some(Doc(freshId, folder));
  }

  /** The parent handling of POST as written, for a truthy `parentId` and a
      valid name: the duplicate check and the stored `parentId` and path use
      the raw text, while the parent lookup goes through `new ObjectId`. */
  function CreateUnderParentAsWritten(fs: map<Id, Folder>, user: Id, name: string, parentId: Id, now: int)
    : (r: (nat, Option<Folder>))
    ensures r.0 == Conflict <==> NameTaken(fs, user, Some(parentId), name, None)
    ensures r.0 == NotFound <==> !NameTaken(fs, user, Some(parentId), name, None) && !OwnsFolder(fs, user, Canon(parentId))
    ensures r.0 == Created <==> r.1.Some?
    ensures r.1.Some? ==> OwnsFolder(fs, user, Canon(parentId)) && r.1.value.parentId == Some(parentId)
    ensures r.1.Some? ==> r.1.value.path == fs[Canon(parentId)].path + [parentId]
  {
    if NameTaken(fs, user, Some(parentId), name, None) then (Conflict, None)
    else if !OwnsFolder(fs, user, Canon(parentId)) then (NotFound, None)
    else (Created, Some(Folder(name, Some(parentId), user, now, now, fs[Canon(parentId)].path + [parentId])))
  }

  /** With the parent's id sent in upper case, the handler as written creates
      a second sibling named like an existing one, and stores a parent link
      that no folder id equals, so the new folder hangs off no folder. */
  lemma UpperCaseParentAsWritten()
    ensures var parent := Folder("docs", None, "u", 0, 0, []);
            var child := Folder("a", Some("ab"), "u", 0, 0, ["ab"]);
            var fs := map["ab" := parent, "cd" := child];
            var r := CreateUnderParentAsWritten(fs, "u", "a", "AB", 1);
            && Sound(fs, map[]) && CanonicalKeys(fs)
            && r.0 == Created
            && Canon(r.1.value.parentId.value) == child.parentId.value && r.1.value.name == child.name
            && !LinkedToParent(fs["ef" := r.1.value], "ef")
  {
    var parent := Folder("docs", None, "u", 0, 0, []);
    var child := Folder("a", Some("ab"), "u", 0, 0, ["ab"]);
    var fs := map["ab" := parent, "cd" := child];
    assert Canon("AB") == "ab" by { assert Lower("AB")[0] == 'a' && Lower("AB")[1] == 'b'; }
    assert Canon("ab") == "ab" && Canon("cd") == "cd" by {
      assert Lower("ab")[0] == 'a' && Lower("ab")[1] == 'b';
      assert Lower("cd")[0] == 'c' && Lower("cd")[1] == 'd';
    }
    assert !NameTaken(fs, "u", Some("AB"), "a", None);
    assert LinkedToParent(fs, "cd");
  }

  /** The same step in the stored spelling, as `CreateFolder` takes it: the
      existing sibling makes it a conflict. */
  lemma UpperCaseParentCorrected(db: Db)
    requires db.Valid()
    requires "ab" in db.folders.docs && "cd" in db.folders.docs
    requires db.folders.docs["cd"] == Folder("a", Some("ab"), "u", 0, 0, ["ab"])
    ensures NameTaken(db.folders.docs, "u", CanonOrNull(Some("AB")), Trim("a"), None)
  {
    assert Canon("AB") == "ab" by { assert Lower("AB")[0] == 'a' && Lower("AB")[1] == 'b'; }
    assert Trim("a") == "a" by {
      var i :| TrimmedAt("a", Trim("a"), i);
      assert !IsSpace('a');
    }
  }

  /** PUT `?id=`: renames one of the caller's folders; only a different
      sibling with the trimmed name is a conflict. Parent and path stay. The
      id is looked up, and excluded from the duplicate check, through
      `new ObjectId`, so in its stored spelling. */
  method RenameFolder(db: Db, caller: Option<Id>, id: Option<string>, name: JsValue, now: int)
    returns (status: nat)
    requires db.Valid()
    modifies db
    ensures db.Valid()
    ensures db.files == old(db.files) && db.users == old(db.users)
    ensures caller.None? ==> status == Unauthorized
    ensures caller.Some? && !Present(id) ==> status == BadRequest
    ensures caller.Some? && Present(id) && !NonBlankString(name) ==> status == BadRequest
    ensures caller.Some? && Present(id) && NonBlankString(name)
            && !OwnsFolder(old(db.folders.docs), caller.value, Canon(id.value))
            ==> status == NotFound
    ensures caller.Some? && Present(id) && NonBlankString(name)
            && OwnsFolder(old(db.folders.docs), caller.value, Canon(id.value))
            && NameTaken(old(db.folders.docs), caller.value, old(db.folders.docs)[Canon(id.value)].parentId,
                         Trim(name.s), Some(Canon(id.value)))
            ==> status == Conflict
    ensures status == Ok <==>
              (caller.Some? && Present(id) && NonBlankString(name)
               && OwnsFolder(old(db.folders.docs), caller.value, Canon(id.value))
               && !NameTaken(old(db.folders.docs), caller.value, old(db.folders.docs)[Canon(id.value)].parentId,
                             Trim(name.s), Some(Canon(id.value))))
    ensures status != Ok ==> db.folders == old(db.folders)
    ensures status == Ok ==>
              db.folders == old(db.folders).Replace(Canon(id.value),
                              old(db.folders.docs)[Canon(id.value)].(name := Trim(name.s), updatedAt := now))
  {
    if caller.None? {
      return Unauthorized;
    }
    var user := caller.value;
    if !Present(id) {
      return BadRequest;
    }
    if !NonBlankString(name) {
      return BadRequest;
    }
    var key := Canon(id.value);
    if !OwnsFolder(db.folders.docs, user, key) {
      return NotFound;
    }
    var folder := db.folders.docs[key];
    var trimmed := Trim(name.s);
    if NameTaken(db.folders.docs, user, folder.parentId, trimmed, Some(key)) {
      return Conflict;
    }
    RenameFolderSound(db.folders.docs, db.files.docs, key, trimmed, now);
    db.folders := db.folders.Replace(key, folder.(name := trimmed, updatedAt := now));
    status := Ok;
  }

  /** Keeping a folder's own name is never a conflict: in a sound store no
      other sibling has it, so a rename to the same name succeeds. */
  lemma RenameToOwnNameAllowed(fs: map<Id, Folder>, files: map<Id, FileDoc>, user: Id, id: Id)
    requires Sound(fs, files) && OwnsFolder(fs, user, id)
    ensures !NameTaken(fs, user, fs[id].parentId, fs[id].name, Some(id))
  {
    forall x | x in fs && fs[x].userId == user && fs[x].parentId == fs[id].parentId && x != id
      ensures fs[x].name != fs[id].name
    {
      assert SiblingNamesUnique(fs);
    }
  }

  /** Some folder of `user` has `id` as its parent. */
  predicate HasChildFolder(fs: map<Id, Folder>, user: Id, id: Id) {
    exists x :: x in fs && fs[x].parentId == Some(id) && fs[x].userId == user
  }

  /** Some file of `user` sits in folder `id`. */
  predicate HasChildFile(files: map<Id, FileDoc>, user: Id, id: Id) {
    exists x :: x in files && files[x].folderId == Some(id) && files[x].userId == user
  }

  /** DELETE `?id=`: refuses (400) while the folder holds a folder or a file,
      which is checked before the folder itself is looked up; removes nothing
      else and does not cascade. The id is taken in its stored spelling for
      the child checks as well as for the lookup and the removal. */
  method DeleteFolder(db: Db, caller: Option<Id>, id: Option<string>) returns (status: nat)
    requires db.Valid()
    modifies db
    ensures db.Valid()
    ensures db.files == old(db.files) && db.users == old(db.users)
    ensures caller.None? ==> status == Unauthorized
    ensures caller.Some? && !Present(id) ==> status == BadRequest
    ensures caller.Some? && Present(id)
            && (HasChildFolder(old(db.folders.docs), caller.value, Canon(id.value))
                || HasChildFile(old(db.files.docs), caller.value, Canon(id.value)))
            ==> status == BadRequest
    ensures caller.Some? && Present(id)
            && !HasChildFolder(old(db.folders.docs), caller.value, Canon(id.value))
            && !HasChildFile(old(db.files.docs), caller.value, Canon(id.value))
            && !OwnsFolder(old(db.folders.docs), caller.value, Canon(id.value))
            ==> status == NotFound
    ensures status == Ok <==>
              (caller.Some? && Present(id)
               && !HasChildFolder(old(db.folders.docs), caller.value, Canon(id.value))
               && !HasChildFile(old(db.files.docs), caller.value, Canon(id.value))
               && OwnsFolder(old(db.folders.docs), caller.value, Canon(id.value)))
    ensures status != Ok ==> db.folders == old(db.folders)
    ensures status == Ok ==> db.folders == old(db.folders).Remove(Canon(id.value))
                             && db.folders.docs == old(db.folders.docs) - {Canon(id.value)}
  {
    if caller.None? {
      return Unauthorized;
    }
    var user := caller.value;
    if !Present(id) {
      return BadRequest;
    }
    var key := Canon(id.value);
    var hasChildren := HasChildFolder(db.folders.docs, user, key);
    var hasFiles := HasChildFile(db.files.docs, user, key);
    if hasChildren || hasFiles {
      return BadRequest;
    }
    if !OwnsFolder(db.folders.docs, user, key) {
      return NotFound;
    }
    ChildrenShareOwner(db.folders.docs, db.files.docs, key);
    RemoveFolderSound(db.folders.docs, db.files.docs, key);
    db.folders := db.folders.Remove(key);
    status := Ok;
  }

  /** DELETE as written, for a present id: the child checks compare the raw
      text of `id`, while the lookup and the removal go through
      `new ObjectId`. Returns the status and the folders left. */
  function DeleteAsWritten(fs: map<Id, Folder>, files: map<Id, FileDoc>, user: Id, id: Id)
    : (r: (nat, map<Id, Folder>))
    ensures r.0 == Ok <==> r.1 != fs
    ensures r.0 == Ok ==> r.1 == fs - {Canon(id)} && Canon(id) in fs
  {
    if HasChildFolder(fs, user, id) || HasChildFile(files, user, id) then (BadRequest, fs)
    else if !OwnsFolder(fs, user, Canon(id)) then (NotFound, fs)
    else (Ok, fs - {Canon(id)})
  }

  /** With the id sent in upper case, the delete as written passes the child
      checks of a folder that has a child, removes it, and leaves the child
      pointing at a folder that no longer exists. */
  lemma UpperCaseDeleteOrphansChild()
    ensures var parent := Folder("docs", None, "u", 0, 0, []);
            var child := Folder("a", Some("ab"), "u", 0, 0, ["ab"]);
            var fs := map["ab" := parent, "cd" := child];
            var r := DeleteAsWritten(fs, map[], "u", "AB");
            && Sound(fs, map[]) && CanonicalKeys(fs)
            && HasChildFolder(fs, "u", Canon("AB"))
            && r.0 == Ok && "cd" in r.1 && !TreeConsistent(r.1)
  {
    var parent := Folder("docs", None, "u", 0, 0, []);
    var child := Folder("a", Some("ab"), "u", 0, 0, ["ab"]);
    var fs := map["ab" := parent, "cd" := child];
    assert Canon("AB") == "ab" by { assert Lower("AB")[0] == 'a' && Lower("AB")[1] == 'b'; }
    assert Canon("ab") == "ab" && Canon("cd") == "cd" by {
      assert Lower("ab")[0] == 'a' && Lower("ab")[1] == 'b';
      assert Lower("cd")[0] == 'c' && Lower("cd")[1] == 'd';
    }
    assert LinkedToParent(fs, "cd");
    assert HasChildFolder(fs, "u", "ab") by { assert fs["cd"].parentId == Some("ab"); }
    assert !HasChildFolder(fs, "u", "AB");
    var left := fs - {"ab"};
    assert !LinkedToParent(left, "cd");
  }

  /** The same request in `DeleteFolder`: the child is found, and the delete
      is refused. */
  lemma UpperCaseDeleteCorrected(db: Db)
    requires db.Valid()
    requires "cd" in db.folders.docs && db.folders.docs["cd"] == Folder("a", Some("ab"), "u", 0, 0, ["ab"])
    ensures HasChildFolder(db.folders.docs, "u", Canon("AB"))
  {
    assert Canon("AB") == "ab" by { assert Lower("AB")[0] == 'a' && Lower("AB")[1] == 'b'; }
  }
}
