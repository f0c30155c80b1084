/** The `Dashboard` component's navigation and list state. The requests it
    makes appear as their outcomes: `accessOk` is whether the folder-path
    lookup succeeded, `ok` whether the rename or delete request succeeded,
    and `created`/`uploaded` what the create or upload service returned
    (`None` when it threw). */
module DashboardComponent {
  import opened Base
  import opened Seqs
  import opened JsText
  import opened ClientLists

  class DashboardView {
    var currentFolderId: Option<Id>
    var folderPath: seq<PathItem>
    var folders: seq<FolderItem>
    var files: seq<FileItem>
    /** The query parameters of the page URL. */
    var url: map<string, string>
    /** The folder awaiting confirmation in the delete dialog (`folderToDelete`). */
    var pendingDelete: Option<FolderItem>

    /** The current folder is the last breadcrumb entry (null at home), and
        the URL's `folder` parameter names it. */
    ghost predicate Valid()
      reads this
    {
      currentFolderId == LastId(folderPath) && FolderParam(url) == OrNull(currentFolderId)
    }

    constructor ()
      ensures Valid()
      ensures currentFolderId == None && folderPath == [] && folders == [] && files == []
      ensures url == map[] && pendingDelete == None
    {
      currentFolderId, folderPath, folders, files := None, [], [], [];
      url, pendingDelete := map[], None;
    }

    /** `updateURL`. */
    method UpdateUrl(folderId: Option<Id>)
      modifies this
      ensures url == WithFolderParam(old(url), folderId)
      ensures currentFolderId == old(currentFolderId) && folderPath == old(folderPath)
      ensures folders == old(folders) && files == old(files) && pendingDelete == old(pendingDelete)
    {
      url := WithFolderParam(url, folderId);
    }

    /** `handleFolderDoubleClick`: opens a folder the access check accepts. */
    method OpenFolder(id: Id, name: string, accessOk: bool)
      requires Valid()
      modifies this
      ensures Valid()
      ensures !accessOk ==> currentFolderId == old(currentFolderId) && folderPath == old(folderPath)
                            && url == old(url)
      ensures accessOk ==> folderPath == old(folderPath) + [PathItem(id, name)] && currentFolderId == Some(id)
                           && url == WithFolderParam(old(url), Some(id))
      ensures folders == old(folders) && files == old(files) && pendingDelete == old(pendingDelete)
    {
      if !accessOk {
        return;
      }
      var newPath := folderPath + [PathItem(id, name)];
      currentFolderId := Some(id);
      folderPath := newPath;
      UpdateUrl(Some(id));
    }

    /** `navigateBack`: pops one entry; nothing happens at home. */
    method NavigateBack()
      requires Valid()
      modifies this
      ensures Valid()
      ensures old(folderPath) == [] ==> folderPath == [] && currentFolderId == None && url == old(url)
      ensures old(folderPath) != [] ==> folderPath == old(folderPath)[..|old(folderPath)| - 1]
                                        && url == WithFolderParam(old(url), currentFolderId)
      ensures old(|folderPath|) >= 2 ==> currentFolderId == Some(old(folderPath)[|old(folderPath)| - 2].id)
      ensures old(|folderPath|) == 1 ==> currentFolderId == None
      ensures folders == old(folders) && files == old(files) && pendingDelete == old(pendingDelete)
    {
      if |folderPath| > 0 {
        var newPath := folderPath[..|folderPath| - 1];
        folderPath := newPath;
        var newFolderId := LastId(newPath);
        currentFolderId := newFolderId;
        UpdateUrl(newFolderId);
      }
    }

    /** `navigateToHome`. */
    method NavigateToHome()
      requires Valid()
      modifies this
      ensures Valid()
      ensures currentFolderId == None && folderPath == [] && url == WithFolderParam(old(url), None)
      ensures folders == old(folders) && files == old(files) && pendingDelete == old(pendingDelete)
    {
      currentFolderId := None;
      folderPath := [];
      UpdateUrl(None);
    }

    /** `navigateToBreadcrumb` as the breadcrumb bar evidently means to call
        it: with the clicked entry's id and its index. Null goes home. */
    method NavigateToBreadcrumb(folderId: Option<Id>, targetIndex: nat, accessOk: bool)
      requires Valid()
      requires folderId.Some? ==> targetIndex < |folderPath| && folderPath[targetIndex].id == folderId.value
      modifies this
      ensures Valid()
      ensures folderId.None? ==> currentFolderId == None && folderPath == []
                                 && url == WithFolderParam(old(url), None)
      ensures folderId.Some? && !accessOk ==> currentFolderId == old(currentFolderId)
                                              && folderPath == old(folderPath) && url == old(url)
      ensures folderId.Some? && accessOk ==>
                folderPath == old(folderPath)[..targetIndex + 1] && currentFolderId == folderId
                && url == WithFolderParam(old(url), folderId)
      ensures folders == old(folders) && files == old(files) && pendingDelete == old(pendingDelete)
    {
      if folderId.None? {
        NavigateToHome();
        return;
      }
      if !accessOk {
        return;
      }
      var newPath := Prefix(folderPath, targetIndex + 1);
      currentFolderId := folderId;
      folderPath := newPath;
      UpdateUrl(folderId);
    }

    /** A click on the breadcrumb at `index` as the bar is wired: the bar
        hands `navigateToBreadcrumb` the clicked entry's id and the entries up
        to it, and the handler uses that array as the target index. With
        access confirmed, the path is cut at `WiredSliceEnd` (to nothing)
        while the clicked folder becomes current and goes into the URL, so
        the view no longer satisfies `Valid`. */
    method ClickBreadcrumbAsWired(index: nat, accessOk: bool)
      requires Valid()
      requires index < |folderPath|
      modifies this
      ensures !accessOk ==> currentFolderId == old(currentFolderId) && folderPath == old(folderPath)
                            && url == old(url)
      ensures accessOk ==> folderPath == [] && currentFolderId == Some(old(folderPath)[index].id)
                           && url == WithFolderParam(old(url), currentFolderId)
      ensures accessOk ==> currentFolderId != LastId(folderPath) && !Valid()
      ensures folders == old(folders) && files == old(files) && pendingDelete == old(pendingDelete)
    {
      var folderId, passed := folderPath[index].id, folderPath[..index + 1];
      if !accessOk {
        return;
      }
      WiredBreadcrumbEmptiesPath(folderPath, index);
      var newPath := Prefix(folderPath, WiredSliceEnd(passed));
      currentFolderId := Some(folderId);
      folderPath := newPath;
      UpdateUrl(Some(folderId));
    }

    /** `createFolder`: a blank name sends nothing; the folder the server
        returns goes first in the list. */
    method CreateFolder(name: string, created: Option<FolderItem>)
      modifies this
      ensures Trim(name) == [] || created.None? ==> folders == old(folders)
      ensures Trim(name) != [] && created.Some? ==> folders == [created.value] + old(folders)
      ensures currentFolderId == old(currentFolderId) && folderPath == old(folderPath) && url == old(url)
      ensures files == old(files) && pendingDelete == old(pendingDelete)
    {
      if Trim(name) == [] {
        return;
      }
      if created.Some? {
        folders := [created.value] + folders;
      }
    }

    /** `handleRename`: a folder is renamed in the list and in the
        breadcrumbs, a file in the file list, both to the trimmed name. */
    method Rename(id: Id, newName: string, isFolder: bool, ok: bool, now: int)
      requires Valid()
      modifies this
      ensures Valid()
      ensures currentFolderId == old(currentFolderId) && url == old(url) && pendingDelete == old(pendingDelete)
      ensures Trim(newName) == [] || !ok ==>
                folders == old(folders) && files == old(files) && folderPath == old(folderPath)
      ensures Trim(newName) != [] && ok && isFolder ==>
                folders == RenameFolders(old(folders), id, Trim(newName), now)
                && folderPath == RenamePath(old(folderPath), id, Trim(newName)) && files == old(files)
      ensures Trim(newName) != [] && ok && !isFolder ==>
                files == RenameFiles(old(files), id, Trim(newName), now)
                && folders == old(folders) && folderPath == old(folderPath)
    {
      var trimmed := Trim(newName);
      if trimmed == [] || !ok {
        return;
      }
      if isFolder {
        folders := RenameFolders(folders, id, trimmed, now);
        folderPath := RenamePath(folderPath, id, trimmed);
      } else {
        files := RenameFiles(files, id, trimmed, now);
      }
    }

    /** `deleteFolder`: after a successful request the folder leaves the list,
        the dialog closes, and if it was the current folder the view goes back. */
    method DeleteFolder(folderId: Id, ok: bool)
      requires Valid()
      modifies this
      ensures Valid()
      ensures files == old(files)
      ensures !ok ==> folders == old(folders) && folderPath == old(folderPath)
                      && currentFolderId == old(currentFolderId) && url == old(url)
                      && pendingDelete == old(pendingDelete)
      ensures ok ==> folders == WithoutId(old(folders), FolderId, folderId) && pendingDelete == None
      ensures ok && old(currentFolderId) != Some(folderId) ==>
                folderPath == old(folderPath) && currentFolderId == old(currentFolderId) && url == old(url)
      ensures ok && old(currentFolderId) == Some(folderId) ==>
                folderPath == old(folderPath)[..|old(folderPath)| - 1]
                && currentFolderId == LastId(folderPath)
                && url == WithFolderParam(old(url), currentFolderId)
    {
      if !ok {
        return;
      }
      folders := WithoutId(folders, FolderId, folderId);
      if Some(folderId) == currentFolderId {
        NavigateBack();
      }
      pendingDelete := None;
    }

    /** `deleteFile`. */
    method DeleteFile(fileId: Id, ok: bool)
      modifies this
      ensures !ok ==> files == old(files)
      ensures ok ==> files == WithoutId(old(files), FileId, fileId)
      ensures folders == old(folders) && folderPath == old(folderPath) && currentFolderId == old(currentFolderId)
      ensures url == old(url) && pendingDelete == old(pendingDelete)
    {
      if ok {
        files := WithoutId(files, FileId, fileId);
      }
    }

    /** `handleDelete`: a listed folder that holds files is only put up for
        confirmation; an empty one, or a file, is deleted at once. */
    method HandleDelete(id: Id, isFolder: bool, ok: bool)
      requires Valid()
      modifies this
      ensures Valid()
      ensures isFolder ==> files == old(files)
      ensures isFolder && FirstWithId(old(folders), id).None? ==>
                folders == old(folders) && folderPath == old(folderPath) && url == old(url)
                && currentFolderId == old(currentFolderId) && pendingDelete == old(pendingDelete)
      ensures isFolder && FirstWithId(old(folders), id).Some? && FirstWithId(old(folders), id).value.fileCount > 0 ==>
                pendingDelete == FirstWithId(old(folders), id) && folders == old(folders)
                && folderPath == old(folderPath) && currentFolderId == old(currentFolderId) && url == old(url)
      ensures isFolder && !ok && FirstWithId(old(folders), id).Some?
              && FirstWithId(old(folders), id).value.fileCount == 0
              ==> folders == old(folders) && folderPath == old(folderPath) && currentFolderId == old(currentFolderId)
                  && url == old(url) && pendingDelete == old(pendingDelete)
      ensures isFolder && ok && FirstWithId(old(folders), id).Some?
              && FirstWithId(old(folders), id).value.fileCount == 0
              ==> folders == WithoutId(old(folders), FolderId, id) && pendingDelete == None
      ensures isFolder && ok && FirstWithId(old(folders), id).Some?
              && FirstWithId(old(folders), id).value.fileCount == 0 && old(currentFolderId) != Some(id)
              ==> folderPath == old(folderPath) && currentFolderId == old(currentFolderId) && url == old(url)
      ensures isFolder && ok && FirstWithId(old(folders), id).Some?
              && FirstWithId(old(folders), id).value.fileCount == 0 && old(currentFolderId) == Some(id)
              ==> folderPath == old(folderPath)[..|old(folderPath)| - 1]
                  && currentFolderId == LastId(folderPath)
                  && url == WithFolderParam(old(url), currentFolderId)
      ensures !isFolder ==> folders == old(folders) && folderPath == old(folderPath) && url == old(url)
                            && currentFolderId == old(currentFolderId) && pendingDelete == old(pendingDelete)
      ensures !isFolder && ok ==> files == WithoutId(old(files), FileId, id)
      ensures !isFolder && !ok ==> files == old(files)
    {
      if isFolder {
        var found := FirstWithId(folders, id);
        if found.Some? {
          if found.value.fileCount > 0 {
            pendingDelete := found;
          } else {
            DeleteFolder(found.value.id, ok);
          }
        }
      } else {
        DeleteFile(id, ok);
      }
    }

    /** `handleConfirmDelete`. */
    method ConfirmDelete(ok: bool)
      requires Valid()
      modifies this
      ensures Valid()
      ensures files == old(files)
      ensures old(pendingDelete).None? || !ok ==>
                folders == old(folders) && folderPath == old(folderPath) && currentFolderId == old(currentFolderId)
                && url == old(url) && pendingDelete == old(pendingDelete)
      ensures old(pendingDelete).Some? && ok ==>
                folders == WithoutId(old(folders), FolderId, old(pendingDelete).value.id) && pendingDelete == None
      ensures old(pendingDelete).Some? && ok && old(currentFolderId) != Some(old(pendingDelete).value.id) ==>
                folderPath == old(folderPath) && currentFolderId == old(currentFolderId) && url == old(url)
      ensures old(pendingDelete).Some? && ok && old(currentFolderId) == Some(old(pendingDelete).value.id) ==>
                folderPath == old(folderPath)[..|old(folderPath)| - 1]
                && currentFolderId == LastId(folderPath)
                && url == WithFolderParam(old(url), currentFolderId)
    {
      if pendingDelete.Some? {
        DeleteFolder(pendingDelete.value.id, ok);
      }
    }

    /** `handleCancelDelete`. */
    method CancelDelete()
      modifies this
      ensures pendingDelete == None
      ensures folders == old(folders) && files == old(files) && folderPath == old(folderPath)
      ensures currentFolderId == old(currentFolderId) && url == old(url)
    {
      pendingDelete := None;
    }

    /** `uploadFiles`: the records the upload service returns go first, in
        their order; nothing changes when it throws or returns none. */
    method UploadFiles(uploaded: Option<seq<FileItem>>)
      modifies this
      ensures uploaded.Some? && uploaded.value != [] ==> files == uploaded.value + old(files)
      ensures uploaded.None? || uploaded.value == [] ==> files == old(files)
      ensures folders == old(folders) && folderPath == old(folderPath) && currentFolderId == old(currentFolderId)
      ensures url == old(url) && pendingDelete == old(pendingDelete)
    {
      if uploaded.Some? && |uploaded.value| > 0 {
        files := uploaded.value + files;
      }
    }
  }

  /** `folders.find(f => f.id === id)`: the first listed folder with that id. */
  function FirstWithId(folders: seq<FolderItem>, id: Id): (r: Option<FolderItem>)
    ensures r.None? <==> forall i :: 0 <= i < |folders| ==> folders[i].id != id
    ensures r.Some? ==> r.value.id == id
    ensures r.Some? ==> exists i :: 0 <= i < |folders| && folders[i] == r.value
                                    && forall j :: 0 <= j < i ==> folders[j].id != id
  {
    if folders == [] then None
    else if folders[0].id == id then Some(folders[0])
    else
      var r := FirstWithId(folders[1..], id);
      assert r.Some? ==> exists i :: 0 <= i < |folders| && folders[i] == r.value
                                     && forall j :: 0 <= j < i ==> folders[j].id != id by {
        if r.Some? {
          var i :| 0 <= i < |folders[1..]| && folders[1..][i] == r.value
                   && forall j :: 0 <= j < i ==> folders[1..][j].id != id;
          assert folders[i + 1] == r.value;
          forall j | 0 <= j < i + 1 ensures folders[j].id != id {
            if j > 0 { assert folders[j] == folders[1..][j - 1]; }
          }
        }
      }
      r
  }

  /** The slice end `navigateToBreadcrumb` computes from what the breadcrumb
      bar actually hands it. The bar passes the entries up to the clicked one
      (an array) where a number is expected, so `targetIndex + 1` is string
      concatenation: an empty array gives "1", a non-empty one
      "[object Object]…1", which `slice` reads as NaN, that is 0. */
  function WiredSliceEnd(passed: seq<PathItem>): nat {
    if passed == [] then 1 else 0
  }

  /** With that wiring, clicking any breadcrumb empties the path while the
      clicked folder becomes current: the view stops showing where it is. */
  lemma WiredBreadcrumbEmptiesPath(path: seq<PathItem>, index: nat)
    requires index < |path|
    ensures Prefix(path, WiredSliceEnd(path[..index + 1])) == []
    ensures LastId(Prefix(path, WiredSliceEnd(path[..index + 1]))) != Some(path[index].id)
  {
    assert path[..index + 1] != [] by { assert path[..index + 1][0] == path[0]; }
  }

  /** Truncating at the clicked entry, as intended, leaves it last, so it is
      the current folder as the view's invariant demands. */
  lemma BreadcrumbTruncationKeepsCurrent(path: seq<PathItem>, index: nat)
    requires index < |path|
    ensures Prefix(path, index + 1) == path[..index + 1]
    ensures LastId(Prefix(path, index + 1)) == Some(path[index].id)
  {
  }
}
