/** The dashboard page's own drive view: breadcrumb navigation without URL
    updates, local list updates after successful requests, and the upload
    loop that keeps going past a failed file. Request outcomes are
    parameters, as in the component model. */
module DashboardPage {
  import opened Base
  import opened Seqs
  import opened JsText
  import opened ClientLists

  /** The records of the uploads that succeeded, in upload order; `None`
      marks a file whose upload or record request failed. */
  function Successes(outcomes: seq<Option<FileItem>>): (r: seq<FileItem>)
    ensures |r| <= |outcomes|
    ensures forall i :: 0 <= i < |r| ==> Some(r[i]) in outcomes
    ensures forall i :: 0 <= i < |outcomes| && outcomes[i].Some? ==> outcomes[i].value in r
  {
    if outcomes == [] then []
    else
      var init := outcomes[..|outcomes| - 1];
      var last := outcomes[|outcomes| - 1];
      var r := Successes(init) + (if last.Some? then [last.value] else []);
      assert forall i :: 0 <= i < |init| ==> init[i] == outcomes[i];
      r
  }

  /** A failure in the middle drops only that file: the successes of a batch
      are those of its first part followed by those of the rest. */
  lemma {:induction false} SuccessesAppend(a: seq<Option<FileItem>>, b: seq<Option<FileItem>>)
    ensures Successes(a + b) == Successes(a) + Successes(b)
    decreases |b|
  {
    if b == [] {
      assert a + b == a;
    } else {
      var b' := b[..|b| - 1];
      assert (a + b)[..|a + b| - 1] == a + b';
      SuccessesAppend(a, b');
    }
  }

  /** When every upload succeeds, every record is kept, in order. */
  lemma {:induction false} AllSucceed(outcomes: seq<Option<FileItem>>)
    requires forall i :: 0 <= i < |outcomes| ==> outcomes[i].Some?
    ensures |Successes(outcomes)| == |outcomes|
    ensures forall i :: 0 <= i < |outcomes| ==> Successes(outcomes)[i] == outcomes[i].value
  {
    if outcomes != [] {
      var n := |outcomes| - 1;
      var init, last := outcomes[..n], outcomes[n];
      forall i | 0 <= i < |init| ensures init[i].Some? {
        assert init[i] == outcomes[i];
      }
      AllSucceed(init);
      assert outcomes == init + [last];
      SuccessesStep(init, last);
      var head := Successes(init);
      forall i | 0 <= i < n ensures head[i] == outcomes[i].value {
        assert init[i] == outcomes[i];
      }
    }
  }

  /** One more outcome adds its record when it succeeded and nothing otherwise. */
  lemma SuccessesStep(init: seq<Option<FileItem>>, last: Option<FileItem>)
    ensures Successes(init + [last]) == Successes(init) + (if last.Some? then [last.value] else [])
  {
    assert (init + [last])[..|init|] == init;
  }

  /** The `for` loop of `uploadFiles`: one request pair per file, and a
      record is pushed only when both succeeded. */
  method CollectUploads(outcomes: seq<Option<FileItem>>) returns (uploaded: seq<FileItem>)
    ensures uploaded == Successes(outcomes)
  {
    uploaded := [];
    var i := 0;
    while i < |outcomes|
      invariant 0 <= i <= |outcomes|
      invariant uploaded == Successes(outcomes[..i])
    {
      assert outcomes[..i + 1][..i] == outcomes[..i];
      if outcomes[i].Some? {
        uploaded := uploaded + [outcomes[i].value];
      }
      i := i + 1;
    }
    assert outcomes[..i] == outcomes;
  }

  class DriveView {
    var currentFolderId: Option<Id>
    var folderPath: seq<PathItem>
    var folders: seq<FolderItem>
    var files: seq<FileItem>

    /** The current folder is the last breadcrumb entry, null at home. */
    ghost predicate Valid()
      reads this
    {
      currentFolderId == LastId(folderPath)
    }

    constructor ()
      ensures Valid()
      ensures currentFolderId == None && folderPath == [] && folders == [] && files == []
    {
      currentFolderId, folderPath, folders, files := None, [], [], [];
    }

    /** `navigateToFolder`. */
    method NavigateToFolder(id: Id, name: string)
      requires Valid()
      modifies this
      ensures Valid()
      ensures folderPath == old(folderPath) + [PathItem(id, name)] && currentFolderId == Some(id)
      ensures folders == old(folders) && files == old(files)
    {
      currentFolderId := Some(id);
      folderPath := folderPath + [PathItem(id, name)];
    }

    /** `navigateBack`: pops one entry; an empty path stays empty. */
    method NavigateBack()
      requires Valid()
      modifies this
      ensures Valid()
      ensures old(folderPath) == [] ==> folderPath == [] && currentFolderId == None
      ensures old(folderPath) != [] ==> folderPath == old(folderPath)[..|old(folderPath)| - 1]
      ensures old(|folderPath|) >= 2 ==> currentFolderId == Some(old(folderPath)[|old(folderPath)| - 2].id)
      ensures old(|folderPath|) == 1 ==> currentFolderId == None
      ensures folders == old(folders) && files == old(files)
    {
      if |folderPath| > 0 {
        var newPath := folderPath[..|folderPath| - 1];
        folderPath := newPath;
        currentFolderId := LastId(newPath);
      }
    }

    /** The Home button. */
    method GoHome()
      modifies this
      ensures Valid()
      ensures currentFolderId == None && folderPath == []
      ensures folders == old(folders) && files == old(files)
    {
      currentFolderId := None;
      folderPath := [];
    }

    /** A click on the breadcrumb at `index`, which only exists for an entry of the path. */
    method ClickBreadcrumb(index: nat)
      requires Valid()
      requires index < |folderPath|
      modifies this
      ensures Valid()
      ensures folderPath == old(folderPath)[..index + 1]
      ensures currentFolderId == Some(old(folderPath)[index].id)
      ensures folders == old(folders) && files == old(files)
    {
      var clicked := folderPath[index];
      folderPath := Prefix(folderPath, index + 1);
      currentFolderId := Some(clicked.id);
    }

    /** `createFolder`: a blank name sends nothing; the folder the server
        returns goes first in the list. */
    method CreateFolder(name: string, created: Option<FolderItem>)
      modifies this
      ensures Trim(name) == [] || created.None? ==> folders == old(folders)
      ensures Trim(name) != [] && created.Some? ==> folders == [created.value] + old(folders)
      ensures currentFolderId == old(currentFolderId) && folderPath == old(folderPath) && files == old(files)
    {
      if Trim(name) == [] {
        return;
      }
      if created.Some? {
        folders := [created.value] + folders;
      }
    }

    /** `updateFolder`: renames the folder in the list and in the breadcrumbs. */
    method UpdateFolder(folderId: Id, newName: string, ok: bool, now: int)
      requires Valid()
      modifies this
      ensures Valid()
      ensures Trim(newName) == [] || !ok ==> folders == old(folders) && folderPath == old(folderPath)
      ensures Trim(newName) != [] && ok ==>
                folders == RenameFolders(old(folders), folderId, Trim(newName), now)
                && folderPath == RenamePath(old(folderPath), folderId, Trim(newName))
      ensures currentFolderId == old(currentFolderId) && files == old(files)
    {
      var trimmed := Trim(newName);
      if trimmed == [] || !ok {
        return;
      }
      folders := RenameFolders(folders, folderId, trimmed, now);
      folderPath := RenamePath(folderPath, folderId, trimmed);
    }

    /** `updateFile`. */
    method UpdateFile(fileId: Id, newName: string, ok: bool, now: int)
      modifies this
      ensures Trim(newName) == [] || !ok ==> files == old(files)
      ensures Trim(newName) != [] && ok ==> files == RenameFiles(old(files), fileId, Trim(newName), now)
      ensures currentFolderId == old(currentFolderId) && folderPath == old(folderPath) && folders == old(folders)
    {
      var trimmed := Trim(newName);
      if trimmed == [] || !ok {
        return;
      }
      files := RenameFiles(files, fileId, trimmed, now);
    }

    /** `deleteFolder`: this view stays where it is even if that folder was current. */
    method DeleteFolder(folderId: Id, ok: bool)
      modifies this
      ensures !ok ==> folders == old(folders)
      ensures ok ==> folders == WithoutId(old(folders), FolderId, folderId)
      ensures currentFolderId == old(currentFolderId) && folderPath == old(folderPath) && files == old(files)
    {
      if ok {
        folders := WithoutId(folders, FolderId, folderId);
      }
    }

    /** `deleteFile`. */
    method DeleteFile(fileId: Id, ok: bool)
      modifies this
      ensures !ok ==> files == old(files)
      ensures ok ==> files == WithoutId(old(files), FileId, fileId)
      ensures currentFolderId == old(currentFolderId) && folderPath == old(folderPath) && folders == old(folders)
    {
      if ok {
        files := WithoutId(files, FileId, fileId);
      }
    }

    /** `uploadFiles`: the successful records go first, in upload order. */
    method UploadFiles(outcomes: seq<Option<FileItem>>)
      modifies this
      ensures Successes(outcomes) != [] ==> files == Successes(outcomes) + old(files)
      ensures Successes(outcomes) == [] ==> files == old(files)
      ensures currentFolderId == old(currentFolderId) && folderPath == old(folderPath) && folders == old(folders)
    {
      var uploaded := CollectUploads(outcomes);
      if |uploaded| > 0 {
        files := uploaded + files;
      }
    }
  }
}
