# DriveClone folder and file registry, in Dafny

This project models the core of DriveClone, a web file manager. The model covers three parts.

**Server route handlers.** Users keep folders and file records in a document store:
- `/api/folders`: list, create, rename, delete;
- `/api/files`: list, record, rename/move, delete;
- `/api/search`: case-insensitive search over names;
- `/api/auth/signup`: validated account creation.

Each write handler is a method on an in-memory store (`Store.Db`). An id the handler reads from a request is brought to its canonical form with `Store.Canon`, as `new ObjectId(id)` does, before it is compared with or stored next to a stored id. It takes the caller's session user id, returns the HTTP status, and changes the store as the handler does. Checks run in the handler's order, so each status answers exactly the inputs that reach it.

**Store invariant.** The store carries `Db.Valid()`, and every handler preserves it:
- among one user's folders under one parent, names are unique;
- every folder's materialised `path` is its parent's path followed by the parent id, with the parent owned by the same user;
- every file sits in a folder of its owner, or at the root;
- stored emails are lower-case and distinct;
- every folder and file key is in canonical form, the lower-case hex that `new ObjectId(id).toString()` prints.

From this follow lemmas that the path is exactly the chain of parent links and that the hierarchy has no cycles.

**Client views.** These are the breadcrumb state machines of the `Dashboard` component and of the dashboard page. They are classes whose fields are the component state:
- `currentFolderId` and `folderPath`;
- the local folder and file lists;
- for the component, the URL's query parameters and the folder awaiting delete confirmation.

Each handler is a method. Its invariant is that the current folder is the last breadcrumb entry, and for the component also that the URL's `folder` parameter names it. Responses from the server are parameters: whether a request succeeded, or what it returned.

Some JavaScript semantics are modelled explicitly because the handlers depend on them:
- truthiness of JSON values;
- `String.prototype.trim` and the `\s` class;
- ASCII lower-casing;
- `String(v)` and `parseInt`.

These live in `JsText`. A request field that the handler type-checks is a `JsValue`.

Behaviour of the code worth noting:
- **Folder creation:** answers 409 for a duplicate sibling name before it looks up the parent (404).
- **Folder deletion:** answers 400 for a non-empty folder before it looks the folder up (404).
- **File deletion:** returns the media-store id and does not delete the blob itself.
- **File update:** moves the file as well as renaming it, when a `folderId` is sent.
- **Delete dialog text:** the component's confirmation dialog promises that contents will be deleted with the folder. The server refuses to delete a non-empty folder, and `FolderRoutes.DeleteFolder` states that refusal.

## Model

| member | source | states |
|---|---|---|
| Store.Collection.Matching | src/app/api/files/route.ts:25-31 | `find(filter)`: every stored document satisfying the filter, each once, and nothing else |
| Store.Collection.FindSorted | src/app/api/folders/route.ts:25-31 | `find(filter).sort({createdAt: -1})`: every stored document that satisfies the filter appears, nothing else does, each once, ordered by decreasing key |
| Store.Collection.FindFirst | src/app/api/search/route.ts:41-47 | `find(filter).limit(n)`: at most n matching documents, no id twice; if fewer than n come back, every match is among them |
| Store.Canon | src/app/api/folders/route.ts:91 | `new ObjectId(id).toString()`: same length, and already canonical (lower-case) |
| Store.CanonOrNull | src/app/api/folders/route.ts:89-93 | a falsy id is null; a truthy one is taken in canonical form |
| Store.PathIsAncestry | src/app/api/folders/route.ts:88-103 | in a consistent store, a folder's stored path equals the ids reached by following parent links from the root |
| Store.PathEntriesAreAncestors | src/app/api/folders/route.ts:88-103 | the k-th path entry is an existing folder of the same owner whose own path is the first k entries |
| Store.NoFolderIsOwnAncestor | src/app/api/folders/route.ts:88-103 | no folder appears in its own path: the hierarchy is acyclic |
| Store.InsertFolderSound | src/app/api/folders/route.ts:75-114 | inserting a folder whose name is free among its siblings and whose path extends its owned parent's keeps the store invariant |
| Store.RenameFolderSound | src/app/api/folders/route.ts:184-206 | renaming to a name no other sibling has keeps the store invariant |
| Store.RemoveFolderSound | src/app/api/folders/route.ts:253-273 | removing a folder that no folder and no file points to keeps the store invariant |
| Store.PlaceFileSound | src/app/api/files/route.ts:75-101 | storing a file record at the root or in a folder its owner owns keeps the store invariant |
| Store.ChildrenShareOwner | src/app/api/folders/route.ts:253-261 | children of a folder always have its owner, so the owner-scoped emptiness check of delete sees every child |
| FolderRoutes.ListFolders | src/app/api/folders/route.ts:8-50 | 401 without a session; otherwise exactly the caller's folders whose parent is the requested one ('null' or empty meaning root), each once, newest first |
| FolderRoutes.CreateFolder | src/app/api/folders/route.ts:52-137 | 401, then 400 for a non-string or blank name, then 409 for a taken sibling name, then 404 for a parent not owned, the parent being `Canon(parentId)`. Otherwise 201 with the trimmed name, `Canon(parentId)` or null as parent, and path = parent path + [parent] (one longer); the name is then taken. Nothing changes on failure; the store invariant holds |
| FolderRoutes.RenameFolder | src/app/api/folders/route.ts:139-226 | 401, 400 (id), 400 (name), 404 (`Canon(id)` not owned), 409 only when another sibling than `Canon(id)` has the trimmed name; on 200 only name and updatedAt change |
| FolderRoutes.CreateUnderParentAsWritten | src/app/api/folders/route.ts:75-107 | POST as written for a truthy parentId: 409 exactly when the raw-text sibling check finds the name; 404 exactly when it does not and `Canon(parentId)` is not owned; otherwise a folder whose stored parentId is the raw text and whose path is the canonical parent's path followed by the raw text |
| FolderRoutes.UpperCaseParentAsWritten | src/app/api/folders/route.ts:75-107 | with the parent id in upper case, a second sibling named like an existing one is created, and it is linked to no folder |
| FolderRoutes.UpperCaseParentCorrected | src/app/api/folders/route.ts:75-107 | the same request taken in canonical form meets the existing sibling name |
| FolderRoutes.RenameToOwnNameAllowed | src/app/api/folders/route.ts:184-196 | keeping a folder's own name is never a conflict |
| FolderRoutes.DeleteFolder | src/app/api/folders/route.ts:228-293 | 401, 400 (id), 400 while the caller has a folder or file inside `Canon(id)`, 404 when not owned; on 200 exactly that folder is gone; files untouched, no cascade |
| FolderRoutes.DeleteAsWritten | src/app/api/folders/route.ts:253-273 | DELETE as written: the child checks use the raw id, the lookup and removal `Canon(id)`; 200 exactly when something is removed, and then exactly `Canon(id)` |
| FolderRoutes.UpperCaseDeleteOrphansChild | src/app/api/folders/route.ts:253-273 | with the id in upper case, a folder that has a child passes the child checks and is removed, and the tree is no longer consistent |
| FolderRoutes.UpperCaseDeleteCorrected | src/app/api/folders/route.ts:253-261 | in canonical form the same request finds the child |
| FileRoutes.ListFiles | src/app/api/files/route.ts:8-50 | 401 without a session; otherwise exactly the caller's files in the requested folder ('null' or empty meaning root), each once, newest first |
| FileRoutes.CreateFile | src/app/api/files/route.ts:52-126 | 401; 400 unless name, originalName, type, size and url are all truthy; 404 for a truthy folderId whose `Canon` is not owned. On 201 the record stores the untrimmed name, `parseInt(size)`, `Canon(folderId)` or null, and the caller's id |
| FileRoutes.UpdateFile | src/app/api/files/route.ts:128-220 | 401, 400 (id), 400 (name), 404 (file `Canon(id)` not owned), 404 (truthy target folder not owned); on 200 the trimmed name and updatedAt are set, and folderId changes only when sent (falsy to null, otherwise its canonical form) |
| FileRoutes.StoredFolderAsWritten | src/app/api/files/route.ts:75-95 | POST and PUT as written, restated from the body: 404 when `Canon(folderId)` is not owned, otherwise the raw text is what is stored. The property is in `FileRoutes.UpperCaseFolderUnplaced` |
| FileRoutes.UpperCaseFolderUnplaced | src/app/api/files/route.ts:173-194 | with the folder id in upper case, the stored folderId names no folder, so the record sits in no folder |
| FileRoutes.DeleteFile | src/app/api/files/route.ts:222-282 | 401, 400 (id), 404 (`Canon(id)` not owned); on 200 exactly that record is removed and its cloudinaryPublicId is returned |
| JsText.Trim | src/app/api/folders/route.ts:65-78 | the result is the input with only white space around it, starts and ends with a non-space, and is empty exactly when the input is all white space |
| JsText.TrimIdempotent | src/app/api/folders/route.ts:78 | trimming a trimmed name changes nothing |
| JsText.HasInfix | src/app/api/search/route.ts:38-44 | true exactly when the needle occurs at some position of the haystack |
| JsText.ParseIntString | src/app/api/files/route.ts:94 | NaN (None) only for text that is not the rendering of any integer |
| JsText.ParseDigits | src/app/api/files/route.ts:94 | reading digits gives NaN exactly when, after a `0x`/`0X` prefix, nothing or a non-hex digit follows, and otherwise exactly when the text is empty or starts with a non-decimal character |
| JsText.DecimalRoundTrip | src/app/api/files/route.ts:94 | the decimal text of any integer parses back to that integer |
| JsText.ParseIntRoundTrip | src/app/api/files/route.ts:94 | `parseInt` gives back any integer sent as a number or as its decimal text |
| SearchRoute.Search | src/app/api/search/route.ts:7-88 | 405 for a non-GET, then 401, then 400 for a missing, non-string or blank q. Otherwise at most 20 folder hits and 20 file hits, each the caller's document under its store id, tagged 'folder' or 'file', matching the trimmed query ignoring case (files on name or originalName); below 20, every match is included |
| SearchRoute.FirstTagged | src/app/api/search/route.ts:41-74 | the limited query tags every hit with its kind and keeps ids and documents |
| SearchRoute.InfixMatches | src/app/api/search/route.ts:38-44 | a name containing the query verbatim always matches |
| SearchRoute.QueryCaseIrrelevant | src/app/api/search/route.ts:38 | a query and its lower-cased form match the same names |
| SearchRoute.QueryPaddingIrrelevant | src/app/api/search/route.ts:38 | a query with surrounding white space gives exactly the result of the bare query |
| SearchRoute.ExactFolderNameFound | src/app/api/search/route.ts:40-47 | a caller's folder named exactly as the query is found unless 20 hits were already returned |
| SignupRoute.IsEmailIffShape | src/app/api/auth/signup/route.ts:32-33 | the email check accepts exactly: non-empty local part, one '@', a '.' neither first nor last in the domain, and no white space or other '@' |
| SignupRoute.Validate | src/app/api/auth/signup/route.ts:11-38 | passes exactly when all fields are truthy, password equals confirmPassword, a string password has at least 6 characters and `String(email)` has the email shape. Otherwise it reports the first failing check in the handler's order: a falsy field, then a mismatch, then a short string password, then a malformed email, each exactly when the earlier checks pass |
| SignupRoute.ValidEmailIsString | src/app/api/auth/signup/route.ts:32-45 | only a string email can pass validation |
| SignupRoute.Signup | src/app/api/auth/signup/route.ts:7-82 | 400 for the first failed check, 400 when the lower-cased email is registered, 500 when hashing a non-string password throws. Otherwise 201 inserting the lower-cased email and the hash; stored emails stay lower-case and unique |
| ClientLists.Prefix | src/app/components/Dashboard/index.tsx:407 | `slice(0, end)` is a prefix of length min(end, length) |
| ClientLists.RenamePath | src/app/components/Dashboard/index.tsx:193-197 | every breadcrumb keeps its id; exactly the entries with the renamed id get the new name |
| ClientLists.RenameFolders | src/app/components/Dashboard/index.tsx:187-191 | only folders with the id get the new name and updatedAt; ids and others unchanged |
| ClientLists.RenameFiles | src/app/components/Dashboard/index.tsx:205-209 | only files with the id get the new name and updatedAt; ids and others unchanged |
| ClientLists.WithoutId | src/app/components/Dashboard/index.tsx:254 | no survivor has the id, and every item with another id survives |
| ClientLists.WithoutIdAppend | src/app/components/Dashboard/index.tsx:278 | removal acts piece by piece, so survivors keep their order |
| ClientLists.WithoutAbsentId | src/app/components/Dashboard/index.tsx:254 | removing an id nobody has leaves the list unchanged |
| ClientLists.WithFolderParam | src/app/components/Dashboard/index.tsx:103-113 | afterwards `get('folder')` is the id when truthy and absent otherwise; every other parameter unchanged |
| ClientLists.LastFolderParamWins | src/app/components/Dashboard/index.tsx:103-113 | two URL updates equal the second alone |
| DashboardComponent.DashboardView.UpdateUrl | src/app/components/Dashboard/index.tsx:103-113 | the URL parameters become the `folder` update of the old ones; nothing else changes |
| DashboardComponent.DashboardView.OpenFolder | src/app/components/Dashboard/index.tsx:358-374 | when access is confirmed, pushes {id, name}, makes it current and puts it in the URL; otherwise nothing changes |
| DashboardComponent.DashboardView.NavigateBack | src/app/components/Dashboard/index.tsx:376-386 | on a non-empty path, pops one entry and makes the new last entry (or null) current and the URL's folder; at home nothing changes |
| DashboardComponent.DashboardView.NavigateToHome | src/app/components/Dashboard/index.tsx:388-392 | empty path, null current folder, `folder` removed from the URL |
| DashboardComponent.DashboardView.NavigateToBreadcrumb | src/app/components/Dashboard/index.tsx:394-415 | null goes home; a confirmed entry at index i truncates the path to i+1 entries, with that entry current and in the URL; a refused one changes nothing |
| DashboardComponent.DashboardView.CreateFolder | src/app/components/Dashboard/index.tsx:157-175 | a blank name, or a failed request, changes nothing; otherwise the returned folder is prepended |
| DashboardComponent.DashboardView.Rename | src/app/components/Dashboard/index.tsx:177-224 | a blank name or failed request changes nothing; a folder is renamed in the list and breadcrumbs, a file in the file list, to the trimmed name |
| DashboardComponent.DashboardView.HandleDelete | src/app/components/Dashboard/index.tsx:226-245 | a listed folder with files only goes to confirmation, with the view and lists unchanged. An empty listed folder is deleted as by `deleteFolder`: on success it leaves the list, the dialog closes, and the view steps back one level (path, current folder and URL) when it was current; on failure nothing changes. A file is removed on success. An unlisted folder id does nothing |
| DashboardComponent.DashboardView.DeleteFolder | src/app/components/Dashboard/index.tsx:247-270 | on success removes that id from the list and closes the dialog. If it was the current folder, the view goes back one level: the path loses its last entry, the new last entry is current, and the URL's `folder` is updated with the other parameters kept. On failure nothing changes |
| DashboardComponent.DashboardView.DeleteFile | src/app/components/Dashboard/index.tsx:272-286 | on success removes exactly the files with that id |
| DashboardComponent.DashboardView.ConfirmDelete | src/app/components/Dashboard/index.tsx:426-430 | deletes the pending folder as `deleteFolder` does, stepping back when it was current; with no pending folder, or a failed request, nothing changes |
| DashboardComponent.DashboardView.CancelDelete | src/app/components/Dashboard/index.tsx:432-436 | clears the pending folder and nothing else |
| DashboardComponent.DashboardView.UploadFiles | src/app/components/Dashboard/index.tsx:288-308 | returned records are prepended in order; nothing changes on failure or an empty result |
| DashboardComponent.FirstWithId | src/app/components/Dashboard/index.tsx:228 | `find`: none exactly when no folder has the id, else the first folder with it |
| DashboardComponent.WiredBreadcrumbEmptiesPath | src/app/components/Dashboard/index.tsx:507-511 | with the breadcrumb bar wired as written, the slice end is 0, so the path is cut to nothing and its last id is not the clicked folder's |
| DashboardComponent.DashboardView.ClickBreadcrumbAsWired | src/app/components/Dashboard/index.tsx:394-415 | the click as wired at line 510: with access confirmed the path becomes empty while the clicked folder becomes current and goes into the URL, so the view's invariant no longer holds; a refused click changes nothing |
| DashboardComponent.BreadcrumbTruncationKeepsCurrent | src/app/components/Dashboard/index.tsx:407-410 | truncating at the clicked index leaves that entry last, hence current |
| DashboardPage.Successes | src/app/dashboard/page.tsx:335-371 | the successful records: no more than the files, each from a success, every success included |
| DashboardPage.SuccessesAppend | src/app/dashboard/page.tsx:337-371 | a failure drops only its own file: the successes of a batch are those of its parts, in order |
| DashboardPage.AllSucceed | src/app/dashboard/page.tsx:337-371 | when every upload succeeds, all records are kept in upload order |
| DashboardPage.SuccessesStep | src/app/dashboard/page.tsx:337-371 | one more file adds its record exactly when its upload succeeded, at the end |
| DashboardPage.CollectUploads | src/app/dashboard/page.tsx:335-371 | the loop collects exactly the successful records in upload order |
| DashboardPage.DriveView.NavigateToFolder | src/app/dashboard/page.tsx:394-397 | pushes {id, name} and makes it current |
| DashboardPage.DriveView.NavigateBack | src/app/dashboard/page.tsx:399-406 | pops one entry and makes the new last entry (or null) current; an empty path stays empty |
| DashboardPage.DriveView.GoHome | src/app/dashboard/page.tsx:574-578 | null current folder and empty path |
| DashboardPage.DriveView.ClickBreadcrumb | src/app/dashboard/page.tsx:584-592 | truncates the path to index+1 entries and makes the clicked entry current |
| DashboardPage.DriveView.CreateFolder | src/app/dashboard/page.tsx:134-168 | a blank name or failed request changes nothing; otherwise the returned folder is prepended |
| DashboardPage.DriveView.UpdateFolder | src/app/dashboard/page.tsx:170-213 | renames only the matching folder and breadcrumb entries to the trimmed name; blank or failed does nothing |
| DashboardPage.DriveView.UpdateFile | src/app/dashboard/page.tsx:215-251 | renames only the matching file to the trimmed name; blank or failed does nothing |
| DashboardPage.DriveView.DeleteFolder | src/app/dashboard/page.tsx:253-277 | on success removes exactly the folders with that id; the view stays put |
| DashboardPage.DriveView.DeleteFile | src/app/dashboard/page.tsx:279-302 | on success removes exactly the files with that id |
| DashboardPage.DriveView.UploadFiles | src/app/dashboard/page.tsx:329-385 | the successful records are prepended in upload order; none means no change |

## Left out

Abstracted rather than modelled:
- **Request bodies that fail to parse:** each handler that reads a JSON body answers 500 from its `catch` when `req.json()` throws or the body is not an object. This covers folder POST (src/app/api/folders/route.ts:63) and PUT (:160), file POST (src/app/api/files/route.ts:63) and PUT (:149), and signup (src/app/api/auth/signup/route.ts:9). The model takes the body's fields as already parsed and has no such 500. Every handler's other 500s, from a database error, are left out too.
- **Store:** the database connection and `MongoClient` are an in-memory store. Each handler runs atomically, so concurrent requests and the check-then-act races are not modelled. The `matchedCount === 0` and `deletedCount === 0` 404 branches that follow a `findOne` of the same document are left out, because only a concurrent change can reach them. These are folder PUT (src/app/api/folders/route.ts:208), file PUT (src/app/api/files/route.ts:202) and file DELETE (src/app/api/files/route.ts:263). Folder DELETE has no lookup before `deleteOne`, so its `deletedCount === 0` (src/app/api/folders/route.ts:275) is the ordinary 404 for a folder the caller does not own. It is modelled as `!OwnsFolder(folders, caller, Canon(id))` in `FolderRoutes.DeleteFolder`.
- **Session:** the session is an `Option` of the user id. A session whose id is the empty string counts as no session.
- **Ids:** ids are strings, and `Store.Canon` (ASCII lower-casing) stands for `new ObjectId(id).toString()`. An id that is not 24 hex digits, which makes `new ObjectId` throw, and the resulting 500s are not modelled. The generated id of an inserted document is an input, required to be canonical. Request body ids (`parentId`, `folderId`) are optional strings; a non-string JSON value there is not modelled.
- **Timestamps:** `new Date()` is an integer parameter, and `createdAt` ordering is on integers.
- Store.Db.Valid, FolderRoutes.CreateFolder, FolderRoutes.DeleteFolder, FileRoutes.CreateFile, FileRoutes.UpdateFile: these take every request id in canonical form, for the `_id` lookups and for the `parentId`/`folderId` filters and stored values alike, and `Db.Valid` requires canonical keys. The source compares and stores the raw text in the `parentId`/`folderId` filters (src/app/api/folders/route.ts:77, :102, :107, :254, :259; src/app/api/files/route.ts:95, :194). That split is modelled separately by `FolderRoutes.CreateUnderParentAsWritten`, `FolderRoutes.DeleteAsWritten` and `FileRoutes.StoredFolderAsWritten`, and described under Findings.
- **Bcrypt:** hashing is a function parameter. Its salt and cost are not modelled.
- **`emailVerified: null`:** this constant field of the inserted user is not kept.
- **`JsText.ParseIntString`:** it is exact on unbounded integers. JavaScript's `parseInt` (src/app/api/files/route.ts:94) returns a double, so a digit string above 2^53 is rounded; the model does not round.
- **JSON values:** objects, arrays, fractional numbers, NaN and numbers at or above 1e21 are not `JsValue`s. `String(v)` and `parseInt` are modelled for integers and strings only.
- **Text semantics:** lower-casing and the case-insensitive match are ASCII only. The password length counts characters, not UTF-16 code units.
- **Search query:** it is matched as a literal substring. Regular-expression metacharacters are not interpreted.
- **Sorting:** documents with equal `createdAt` keep the store's natural order. The store itself does not promise any tie order.
- **URL parameters:** `URLSearchParams` is a map, so repeated keys and parameter order are not modelled.

Not modelled at all:
- **Upload route:** `src/app/api/upload/route.ts`, the media-store upload and `uploadToCloudinary` are not part of this model. Each upload's result is an input.
- **Services:** the fetch and axios wrappers in `src/app/services` are not part of this model. Their result is an input: success, failure, or the returned record.
- **Client effects:** initialisation from the URL, the fetches that reload the lists, loading and error flags, and error messages are not modelled. The same goes for modal, preview, context-menu and editing state, and the upload progress text with its timer.
- **Folder path resolver:** `src/app/api/folders/[id]/path.ts`, which the component's access check calls, is not part of this model. Its outcome is the `accessOk` input. As the files stand, index.tsx imports `fetchFolderPath`, which folder.service.ts does not export (it exports `getFolderPath`), so `validateFolderAccess` (index.tsx:348-356) always catches an error and returns false. Every caller then sees `accessOk` false: `handleFolderDoubleClick` (index.tsx:358-364) never opens a folder, and the init effect always falls back. The model keeps `accessOk` an input so that it also describes the component once that import resolves.
- **Other code:** `formatFileSize` (floating point) and the render-only components are not modelled.

## Findings

| source | as written | input that shows it | evidently intended | confidence | as-written member | corrected member |
|---|---|---|---|---|---|---|
| src/app/components/Dashboard/index.tsx:510 | the breadcrumb bar calls back with `(folder.id, folderPath.slice(0, index + 1))`, and this line hands that array to `navigateToBreadcrumb` as `targetIndex`. `targetIndex + 1` becomes the string "[object Object]…1", and `slice` reads it as 0 | path [{id:"a"}, {id:"b"}], click on "a": the path becomes [] while "a" becomes the current folder and the URL's folder | truncate to the clicked entry, keeping path [{id:"a"}] with "a" current. As the files stand, the access check the click runs first calls `fetchFolderPath`, which index.tsx imports but folder.service.ts does not export (it exports `getFolderPath`); the call throws, `validateFolderAccess` (index.tsx:348-356) catches it and returns false, and the click only sets an error message. The model takes the check's outcome as `accessOk`, so the row describes the click once that import resolves | high (not executed) | DashboardComponent.DashboardView.ClickBreadcrumbAsWired | DashboardComponent.DashboardView.NavigateToBreadcrumb |
| src/app/api/folders/route.ts:253-273 | the child checks filter on the raw `id` (`parentId: id`, `folderId: id`), but the delete goes through `new ObjectId(id)`, which accepts upper-case hex | `DELETE ?id=` with the upper-case spelling of a folder that has a subfolder: no child matches, the folder is deleted, and the subfolder's parent is gone | compare the canonical id in the child checks too, so the delete is refused with 400 | medium (not executed) | FolderRoutes.UpperCaseDeleteOrphansChild | FolderRoutes.DeleteFolder |
| src/app/api/folders/route.ts:75-107 | the sibling-name check and the stored `parentId` and path use the raw `parentId`, while the parent lookup goes through `new ObjectId(parentId)` | `POST {name: "a", parentId: <upper-case id of a folder that has a child "a">}`: no conflict, and a folder is created whose `parentId` no folder has, so the listing of that parent never shows it | use the canonical parent id throughout: 409 for the duplicate, and the link kept | medium (not executed) | FolderRoutes.UpperCaseParentAsWritten | FolderRoutes.CreateFolder |
| src/app/api/files/route.ts:75-95 | the folder is looked up through `new ObjectId(folderId)`, but the record stores the raw `folderId` | `POST` with the upper-case spelling of an owned folder's id: 201, and the file is listed under no folder | store the canonical folder id | medium (not executed) | FileRoutes.UpperCaseFolderUnplaced | FileRoutes.CreateFile |
| src/app/api/files/route.ts:173-194 | a move looks the target up through `new ObjectId(folderId)`, but stores the raw `folderId` | `PUT` with `folderId` the upper-case spelling of an owned folder's id: 200, and the file disappears from every folder listing | store the canonical folder id | medium (not executed) | FileRoutes.UpperCaseFolderUnplaced | FileRoutes.UpdateFile |
