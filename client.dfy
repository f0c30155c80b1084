/** The list and URL updates shared by the two drive views: the breadcrumb
    entries, the local folder and file lists the views keep after each
    successful request, and the `folder` query parameter. */
module ClientLists {
  import opened Base
  import opened Seqs

  /** One breadcrumb entry. */
  datatype PathItem = PathItem(id: Id, name: string)

  /** A folder as the view lists it; an absent `fileCount` is 0, which the
      views treat the same way. */
  datatype FolderItem = FolderItem(id: Id, name: string, fileCount: nat, updatedAt: Option<int>)

  datatype FileItem = FileItem(id: Id, name: string, updatedAt: Option<int>)

  function FolderId(f: FolderItem): Id { f.id }
  function FileId(f: FileItem): Id { f.id }

  /** The id of the last breadcrumb entry, `None` (null) for an empty path. */
  function LastId(path: seq<PathItem>): Option<Id> {
    if path == [] then None else Some(path[|path| - 1].id)
  }

  /** `path.slice(0, end)` for a non-negative end: the first `end` entries, or
      all of them when there are fewer. */
  function Prefix(path: seq<PathItem>, end: nat): (r: seq<PathItem>)
    ensures r <= path
    ensures |r| == if end < |path| then end else |path|
  {
    if end < |path| then path[..end] else path
  }

  /** The breadcrumb entries after renaming folder `id`: every entry keeps its
      id, and exactly the entries for `id` take the new name. */
  function RenamePath(path: seq<PathItem>, id: Id, name: string): (r: seq<PathItem>)
    ensures |r| == |path|
    ensures forall i :: 0 <= i < |path| ==> r[i].id == path[i].id
    ensures forall i :: 0 <= i < |path| && path[i].id == id ==> r[i].name == name
    ensures forall i :: 0 <= i < |path| && path[i].id != id ==> r[i] == path[i]
  {
    seq(|path|, i requires 0 <= i < |path| => if path[i].id == id then path[i].(name := name) else path[i])
  }

  /** The folder list after renaming folder `id` at time `now`. */
  function RenameFolders(folders: seq<FolderItem>, id: Id, name: string, now: int): (r: seq<FolderItem>)
    ensures |r| == |folders|
    ensures forall i :: 0 <= i < |folders| ==> r[i].id == folders[i].id && r[i].fileCount == folders[i].fileCount
    ensures forall i :: 0 <= i < |folders| && folders[i].id == id ==> r[i].name == name && r[i].updatedAt == Some(now)
    ensures forall i :: 0 <= i < |folders| && folders[i].id != id ==> r[i] == folders[i]
  {
    seq(|folders|, i requires 0 <= i < |folders| =>
      if folders[i].id == id then folders[i].(name := name, updatedAt := Some(now)) else folders[i])
  }

  /** The file list after renaming file `id` at time `now`. */
  function RenameFiles(files: seq<FileItem>, id: Id, name: string, now: int): (r: seq<FileItem>)
    ensures |r| == |files|
    ensures forall i :: 0 <= i < |files| ==> r[i].id == files[i].id
    ensures forall i :: 0 <= i < |files| && files[i].id == id ==> r[i].name == name && r[i].updatedAt == Some(now)
    ensures forall i :: 0 <= i < |files| && files[i].id != id ==> r[i] == files[i]
  {
    seq(|files|, i requires 0 <= i < |files| =>
      if files[i].id == id then files[i].(name := name, updatedAt := Some(now)) else files[i])
  }

  /** `list.filter(x => x.id !== id)`. */
  function WithoutId<T(==)>(s: seq<T>, idOf: T -> Id, id: Id): (r: seq<T>)
    ensures |r| <= |s|
    ensures forall i :: 0 <= i < |r| ==> idOf(r[i]) != id && r[i] in s
    ensures forall i :: 0 <= i < |s| && idOf(s[i]) != id ==> s[i] in r
  {
    Filter(s, x => idOf(x) != id)
  }

  /** Removal keeps the survivors in their order: it works piece by piece. */
  lemma WithoutIdAppend<T>(a: seq<T>, b: seq<T>, idOf: T -> Id, id: Id)
    ensures WithoutId(a + b, idOf, id) == WithoutId(a, idOf, id) + WithoutId(b, idOf, id)
  {
    FilterAppend(a, b, x => idOf(x) != id);
  }

  /** Removing an id nobody has changes nothing. */
  lemma WithoutAbsentId<T>(s: seq<T>, idOf: T -> Id, id: Id)
    requires forall i :: 0 <= i < |s| ==> idOf(s[i]) != id
    ensures WithoutId(s, idOf, id) == s
  {
    FilterKeepsAll(s, x => idOf(x) != id);
  }

  /** `searchParams.get('folder')`. */
  function FolderParam(params: map<string, string>): Option<string> {
    if "folder" in params then Some(params["folder"]) else None
  }

  /** `updateURL`'s parameter edit: `set('folder', id)` for a truthy id,
      `delete('folder')` otherwise; every other parameter stays. */
  function WithFolderParam(params: map<string, string>, folderId: Option<Id>): (r: map<string, string>)
    ensures FolderParam(r) == OrNull(folderId)
    ensures forall k :: k != "folder" ==> (k in r <==> k in params)
    ensures forall k :: k != "folder" && k in params ==> r[k] == params[k]
  {
    if Present(folderId) then params["folder" := folderId.value] else params - {"folder"}
  }

  /** Only the latest update of the parameter counts: updating twice is
      updating once with the second id. */
  lemma LastFolderParamWins(params: map<string, string>, first: Option<Id>, second: Option<Id>)
    ensures WithFolderParam(WithFolderParam(params, first), second) == WithFolderParam(params, second)
  {
    var lhs := WithFolderParam(WithFolderParam(params, first), second);
    var rhs := WithFolderParam(params, second);
    assert forall k :: k in lhs <==> k in rhs;
  }
}
