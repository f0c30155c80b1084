/** The document store the route handlers share: the `folders`, `files` and
    `users` collections, held in memory. Each collection keeps its documents
    by id together with the store's natural (insertion) order, which decides
    the order of ties in a sort and which documents a `limit` keeps. */
module Store {
  import opened Base
  import opened Seqs
  import opened JsText

  /** A folder document; `path` lists the ancestor ids, root first. */
  datatype Folder = Folder(name: string, parentId: Option<Id>, userId: Id,
                           createdAt: int, updatedAt: int, path: seq<Id>)

  /** A file record; the name fields hold whatever JSON value the client sent
      (the handler only checks that they are truthy). `size` is the result of
      `parseInt`, `None` for NaN. */
  datatype FileDoc = FileDoc(name: JsValue, originalName: JsValue, mime: JsValue,
                             size: Option<int>, folderId: Option<Id>, userId: Id,
                             url: JsValue, publicId: JsValue,
                             createdAt: int, updatedAt: int)

  /** A user document; `password` holds the hash. */
  datatype User = User(name: JsValue, email: string, password: string, createdAt: int)

  /** A document together with its id, as the handlers return it (`{ ...doc, id }`). */
  datatype Doc<T> = Doc(id: Id, body: T)

  datatype Collection<T> = Collection(docs: map<Id, T>, order: seq<Id>) {

    /** The natural order lists every stored id exactly once. */
    ghost predicate Valid() {
      && Distinct(order)
      && (forall i :: 0 <= i < |order| ==> order[i] in docs)
      && (forall id :: id in docs ==> id in order)
    }

    /** `insertOne`: the new document goes last in natural order. */
    function Insert(id: Id, doc: T): (c: Collection<T>)
      requires Valid() && id !in docs
      ensures c.Valid()
    {
      Collection(docs[id := doc], order + [id])
    }

    /** `updateOne` on an existing document. */
    function Replace(id: Id, doc: T): (c: Collection<T>)
      requires Valid() && id in docs
      ensures c.Valid()
    {
      Collection(docs[id := doc], order)
    }

    /** `deleteOne`. */
    function Remove(id: Id): (c: Collection<T>)
      requires Valid()
      ensures c.Valid()
    {
      Collection(docs - {id}, Filter(order, x => x != id))
    }

    /** `find(filter)`: the ids of the matching documents, in natural order. */
    function Select(p: (Id, T) -> bool): (ids: seq<Id>)
      requires Valid()
      ensures Distinct(ids)
      ensures forall i :: 0 <= i < |ids| ==> ids[i] in docs && p(ids[i], docs[ids[i]])
      ensures forall id :: id in docs && p(id, docs[id]) ==> id in ids
    {
      Filter(order, id => id in docs && p(id, docs[id]))
    }

    /** `find(filter)` as documents: every matching document exactly once,
        in natural order. */
    function Matching(p: (Id, T) -> bool): (r: seq<Doc<T>>)
      requires Valid()
      ensures forall i :: 0 <= i < |r| ==> r[i].id in docs && r[i].body == docs[r[i].id] && p(r[i].id, r[i].body)
      ensures forall i, j :: 0 <= i < j < |r| ==> r[i].id != r[j].id
      ensures forall id :: id in docs && p(id, docs[id]) ==> Doc(id, docs[id]) in r
    {
      var ids := Select(p);
      var found := Docs(ids);
      forall id | id in docs && p(id, docs[id]) ensures Doc(id, docs[id]) in found {
        var i :| 0 <= i < |ids| && ids[i] == id;
        assert found[i] == Doc(id, docs[id]);
      }
      found
    }

    /** `find(filter).sort({ createdAt: -1 })`: the matching documents, each
        exactly once, ordered by decreasing key; ties stay in natural order. */
    function FindSorted(p: (Id, T) -> bool, key: Doc<T> -> int): (r: seq<Doc<T>>)
      requires Valid()
      ensures forall i :: 0 <= i < |r| ==> r[i].id in docs && r[i].body == docs[r[i].id] && p(r[i].id, r[i].body)
      ensures forall id :: id in docs && p(id, docs[id]) ==> Doc(id, docs[id]) in r
      ensures Distinct(r)
      ensures Descending(r, key)
    {
      var found := Matching(p);
      assert Distinct(found) by {
        forall i, j | 0 <= i < j < |found| ensures found[i] != found[j] {
          assert found[i].id != found[j].id;
        }
      }
      SortDescSorted(found, key);
      SortDescDistinct(found, key);
      SortDescSameElements(found, key);
      SortDesc(found, key)
    }

    /** `find(filter).limit(n)`: the first `n` matching documents in natural order. */
    function FindFirst(p: (Id, T) -> bool, n: nat): (r: seq<Doc<T>>)
      requires Valid()
      ensures |r| <= n
      ensures forall i :: 0 <= i < |r| ==> r[i].id in docs && r[i].body == docs[r[i].id] && p(r[i].id, r[i].body)
      ensures forall i, j :: 0 <= i < j < |r| ==> r[i].id != r[j].id
      ensures |r| < n ==> forall id :: id in docs && p(id, docs[id]) ==> Doc(id, docs[id]) in r
    {
      var found := Matching(p);
      if |found| <= n then found else found[..n]
    }

    /** The documents behind a list of ids, each tagged with its id. */
    function Docs(ids: seq<Id>): (r: seq<Doc<T>>)
      requires forall i :: 0 <= i < |ids| ==> ids[i] in docs
      ensures |r| == |ids|
      ensures forall i :: 0 <= i < |ids| ==> r[i] == Doc(ids[i], docs[ids[i]])
    {
      seq(|ids|, i requires 0 <= i < |ids| => Doc(ids[i], docs[ids[i]]))
    }
  }

  /** `new ObjectId(id).toString()` for an id of 24 hexadecimal digits:
      ObjectId reads the digits in either case and writes them in lower case,
      so `Canon` is the spelling under which a document is stored. */
  function Canon(id: Id): (c: Id)
    ensures |c| == |id|
    ensures Lower(c) == c
  {
    LowerIdempotent(id);
    Lower(id)
  }

  /** `id || null` in stored form: the canonical spelling of a truthy id. */
  function CanonOrNull(id: Option<Id>): (r: Option<Id>)
    ensures r.None? <==> !Present(id)
    ensures r.Some? ==> r.value == Canon(id.value) && Canon(r.value) == r.value
  {
    if Present(id) then Some(Canon(id.value)) else None
  }

  /** Every stored id is in the spelling `_id.toString()` gives. */
  ghost predicate CanonicalKeys<T>(m: map<Id, T>) {
    forall k :: k in m ==> Canon(k) == k
  }

  predicate OwnsFolder(fs: map<Id, Folder>, user: Id, id: Id) {
    id in fs && fs[id].userId == user
  }

  predicate OwnsFile(files: map<Id, FileDoc>, user: Id, id: Id) {
    id in files && files[id].userId == user
  }

  /** Some folder of `user` other than `except` sits under `parent` with this name. */
  predicate NameTaken(fs: map<Id, Folder>, user: Id, parent: Option<Id>, name: string, except: Option<Id>) {
    exists id :: id in fs && fs[id].userId == user && fs[id].parentId == parent
                 && fs[id].name == name && Some(id) != except
  }

  /** Among one user's folders under one parent, names are unique. */
  ghost predicate SiblingNamesUnique(fs: map<Id, Folder>) {
    forall a, b ::
      (a in fs && b in fs && a != b && fs[a].userId == fs[b].userId && fs[a].parentId == fs[b].parentId)
      ==> fs[a].name != fs[b].name
  }

  /** The folder's parent exists, has the same owner, and the folder's path
      is the parent's path followed by the parent's id; a root folder has an
      empty path. */
  ghost predicate LinkedToParent(fs: map<Id, Folder>, id: Id)
    requires id in fs
  {
    match fs[id].parentId
    case None => fs[id].path == []
    case Some(p) => p in fs && fs[p].userId == fs[id].userId && fs[id].path == fs[p].path + [p]
  }

  ghost predicate TreeConsistent(fs: map<Id, Folder>) {
    forall id :: id in fs ==> LinkedToParent(fs, id)
  }

  /** Every file sits at the root or in an existing folder of its own owner. */
  ghost predicate FilesPlaced(files: map<Id, FileDoc>, fs: map<Id, Folder>) {
    forall id :: id in files && files[id].folderId.Some? ==>
      OwnsFolder(fs, files[id].userId, files[id].folderId.value)
  }

  ghost predicate Sound(fs: map<Id, Folder>, files: map<Id, FileDoc>) {
    SiblingNamesUnique(fs) && TreeConsistent(fs) && FilesPlaced(files, fs)
  }

  /** A stored email already in lower case. */
  predicate EmailTaken(users: map<Id, User>, email: string) {
    exists id :: id in users && users[id].email == email
  }

  /** Stored emails are lower-cased, and no two users share one. */
  ghost predicate EmailsUnique(users: map<Id, User>) {
    && (forall id :: id in users ==> Lower(users[id].email) == users[id].email)
    && (forall a, b :: a in users && b in users && a != b ==> users[a].email != users[b].email)
  }

  class Db {
    var folders: Collection<Folder>
    var files: Collection<FileDoc>
    var users: Collection<User>

    ghost predicate Valid()
      reads this
    {
      folders.Valid() && files.Valid() && users.Valid()
      && CanonicalKeys(folders.docs) && CanonicalKeys(files.docs)
      && Sound(folders.docs, files.docs) && EmailsUnique(users.docs)
    }

    constructor ()
      ensures Valid()
      ensures folders.docs == map[] && files.docs == map[] && users.docs == map[]
    {
      folders := Collection(map[], []);
      files := Collection(map[], []);
      users := Collection(map[], []);
    }
  }

  /** The ids obtained by following `parentId` links from the root down to the
      folder's parent: the ancestry the `path` field is meant to cache. */
  ghost function Ancestry(fs: map<Id, Folder>, id: Id): seq<Id>
    requires TreeConsistent(fs) && id in fs
    decreases |fs[id].path|
  {
    assert LinkedToParent(fs, id);
    match fs[id].parentId
    case None => []
    case Some(p) => Ancestry(fs, p) + [p]
  }

  /** The stored path of every folder equals its ancestry. */
  lemma {:induction false} PathIsAncestry(fs: map<Id, Folder>, id: Id)
    requires TreeConsistent(fs) && id in fs
    ensures fs[id].path == Ancestry(fs, id)
    decreases |fs[id].path|
  {
    assert LinkedToParent(fs, id);
    if fs[id].parentId.Some? {
      PathIsAncestry(fs, fs[id].parentId.value);
    }
  }

  /** The k-th entry of a folder's path is an existing folder of the same
      owner whose own path is the first k entries: every path entry is a real
      ancestor at the depth its position says. */
  lemma {:induction false} PathEntriesAreAncestors(fs: map<Id, Folder>, id: Id, k: nat)
    requires TreeConsistent(fs) && id in fs && k < |fs[id].path|
    ensures fs[id].path[k] in fs
    ensures fs[fs[id].path[k]].userId == fs[id].userId
    ensures fs[fs[id].path[k]].path == fs[id].path[..k]
    decreases |fs[id].path|
  {
    assert LinkedToParent(fs, id);
    var p := fs[id].parentId.value;
    if k < |fs[p].path| {
      PathEntriesAreAncestors(fs, p, k);
      assert fs[id].path[..k] == fs[p].path[..k];
    } else {
      assert fs[id].path[..k] == fs[p].path;
    }
  }

  /** The hierarchy has no cycles: no folder is among its own ancestors. */
  lemma NoFolderIsOwnAncestor(fs: map<Id, Folder>, id: Id)
    requires TreeConsistent(fs) && id in fs
    ensures id !in fs[id].path
  {
    forall k | 0 <= k < |fs[id].path| ensures fs[id].path[k] != id {
      PathEntriesAreAncestors(fs, id, k);
    }
  }

  /** Adding a folder that is linked to its parent and whose name is free
      among its siblings keeps the store sound. */
  lemma InsertFolderSound(fs: map<Id, Folder>, files: map<Id, FileDoc>, id: Id, f: Folder)
    requires Sound(fs, files) && id !in fs
    requires !NameTaken(fs, f.userId, f.parentId, f.name, None)
    requires f.parentId.None? ==> f.path == []
    requires f.parentId.Some? ==> OwnsFolder(fs, f.userId, f.parentId.value)
                                  && f.path == fs[f.parentId.value].path + [f.parentId.value]
    ensures Sound(fs[id := f], files)
  {
    var fs' := fs[id := f];
    forall x | x in fs' ensures LinkedToParent(fs', x) {
      if x != id {
        assert LinkedToParent(fs, x);
      }
    }
  }

  /** Renaming a folder to a name no other sibling has keeps the store sound. */
  lemma RenameFolderSound(fs: map<Id, Folder>, files: map<Id, FileDoc>, id: Id, name: string, now: int)
    requires Sound(fs, files) && id in fs
    requires !NameTaken(fs, fs[id].userId, fs[id].parentId, name, Some(id))
    ensures Sound(fs[id := fs[id].(name := name, updatedAt := now)], files)
  {
    var fs' := fs[id := fs[id].(name := name, updatedAt := now)];
    forall x | x in fs' ensures LinkedToParent(fs', x) {
      assert LinkedToParent(fs, x);
    }
  }

  /** Storing a file record at the root or in a folder its owner owns keeps
      the store sound; folders are untouched. */
  lemma PlaceFileSound(fs: map<Id, Folder>, files: map<Id, FileDoc>, id: Id, f: FileDoc)
    requires Sound(fs, files)
    requires f.folderId.Some? ==> OwnsFolder(fs, f.userId, f.folderId.value)
    ensures Sound(fs, files[id := f])
  {
    var files' := files[id := f];
    forall x | x in files' && files'[x].folderId.Some?
      ensures OwnsFolder(fs, files'[x].userId, files'[x].folderId.value)
    {
      if x != id {
        assert files'[x] == files[x];
      }
    }
  }

  /** Removing a folder that no folder and no file points to keeps the store sound. */
  lemma RemoveFolderSound(fs: map<Id, Folder>, files: map<Id, FileDoc>, id: Id)
    requires Sound(fs, files) && id in fs
    requires forall x :: x in fs ==> fs[x].parentId != Some(id)
    requires forall x :: x in files ==> files[x].folderId != Some(id)
    ensures Sound(fs - {id}, files)
  {
    var fs' := fs - {id};
    forall x | x in fs' ensures LinkedToParent(fs', x) {
      assert LinkedToParent(fs, x);
    }
  }

  /** Under a sound store, the owner-scoped emptiness checks of the delete
      handler see every child: children always share their parent's owner. */
  lemma ChildrenShareOwner(fs: map<Id, Folder>, files: map<Id, FileDoc>, id: Id)
    requires Sound(fs, files) && id in fs
    ensures forall x :: x in fs && fs[x].parentId == Some(id) ==> fs[x].userId == fs[id].userId
    ensures forall x :: x in files && files[x].folderId == Some(id) ==> files[x].userId == fs[id].userId
  {
    forall x | x in fs && fs[x].parentId == Some(id) ensures fs[x].userId == fs[id].userId {
      assert LinkedToParent(fs, x);
    }
  }
}
