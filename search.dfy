/** `GET /api/search?q=`: case-insensitive search over the caller's folder
    names and file names, at most twenty of each. Folder hits are tagged
    `type: 'folder'` and file hits `type: 'file'`. */
module SearchRoute {
  import opened Base
  import opened JsText
  import opened Store

  const Limit: nat := 20

  /** A result entry: the document with its id, and its `type` tag. */
  datatype Hit<T> = Hit(doc: Doc<T>, kind: string)

  datatype SearchResult = SearchResult(status: nat, folders: seq<Hit<Folder>>, files: seq<Hit<FileDoc>>)

  /** `find(filter).limit(20)` followed by `map` adding the `type` tag. */
  function FirstTagged<T>(c: Collection<T>, p: (Id, T) -> bool, kind: string): (r: seq<Hit<T>>)
    requires c.Valid()
    ensures |r| <= Limit
    ensures forall i :: 0 <= i < |r| ==>
              r[i].kind == kind && r[i].doc.id in c.docs && r[i].doc.body == c.docs[r[i].doc.id]
              && p(r[i].doc.id, r[i].doc.body)
    ensures forall i, j :: 0 <= i < j < |r| ==> r[i].doc.id != r[j].doc.id
    ensures |r| < Limit ==> forall id :: id in c.docs && p(id, c.docs[id]) ==> Hit(Doc(id, c.docs[id]), kind) in r
  {
    var docs := c.FindFirst(p, Limit);
    var r := seq(|docs|, i requires 0 <= i < |docs| => Hit(docs[i], kind));
    forall id | id in c.docs && p(id, c.docs[id]) && |r| < Limit ensures Hit(Doc(id, c.docs[id]), kind) in r {
      var i :| 0 <= i < |docs| && docs[i] == Doc(id, c.docs[id]);
      assert r[i] == Hit(Doc(id, c.docs[id]), kind);
    }
    r
  }

  /** The `$regex` condition on one stored field: only a string field can match. */
  predicate FieldMatches(v: JsValue, q: string) {
    v.Str? && MatchesIgnoringCase(v.s, q)
  }

  predicate FolderHit(user: Id, q: string, f: Folder) {
    f.userId == user && MatchesIgnoringCase(f.name, q)
  }

  /** A file matches on its display name or on its original name. */
  predicate FileHit(user: Id, q: string, f: FileDoc) {
    f.userId == user && (FieldMatches(f.name, q) || FieldMatches(f.originalName, q))
  }

  /** The handler: method check, session check, query check, then the two
      limited queries with the trimmed query. */
  function Search(httpMethod: string, caller: Option<Id>, q: JsValue,
                  folders: Collection<Folder>, files: Collection<FileDoc>): (r: SearchResult)
    requires folders.Valid() && files.Valid()
    ensures httpMethod != "GET" ==> r == SearchResult(MethodNotAllowed, [], [])
    ensures httpMethod == "GET" && caller.None? ==> r == SearchResult(Unauthorized, [], [])
    ensures httpMethod == "GET" && caller.Some? && !NonBlankString(q) ==> r == SearchResult(BadRequest, [], [])
    ensures r.status == Ok <==> httpMethod == "GET" && caller.Some? && NonBlankString(q)
    ensures |r.folders| <= Limit && |r.files| <= Limit
    ensures forall i :: 0 <= i < |r.folders| ==> r.folders[i].kind == "folder"
    ensures forall i :: 0 <= i < |r.files| ==> r.files[i].kind == "file"
    ensures r.status == Ok ==>
              && (forall i :: 0 <= i < |r.folders| ==>
                    var d := r.folders[i].doc;
                    d.id in folders.docs && d.body == folders.docs[d.id] && FolderHit(caller.value, Trim(q.s), d.body))
              && (forall i :: 0 <= i < |r.files| ==>
                    var d := r.files[i].doc;
                    d.id in files.docs && d.body == files.docs[d.id] && FileHit(caller.value, Trim(q.s), d.body))
    ensures forall i, j :: 0 <= i < j < |r.folders| ==> r.folders[i].doc.id != r.folders[j].doc.id
    ensures forall i, j :: 0 <= i < j < |r.files| ==> r.files[i].doc.id != r.files[j].doc.id
    ensures r.status == Ok && |r.folders| < Limit ==>
              forall id :: id in folders.docs && FolderHit(caller.value, Trim(q.s), folders.docs[id])
                           ==> Hit(Doc(id, folders.docs[id]), "folder") in r.folders
    ensures r.status == Ok && |r.files| < Limit ==>
              forall id :: id in files.docs && FileHit(caller.value, Trim(q.s), files.docs[id])
                           ==> Hit(Doc(id, files.docs[id]), "file") in r.files
  {
    if httpMethod != "GET" then SearchResult(MethodNotAllowed, [], [])
    else if caller.None? then SearchResult(Unauthorized, [], [])
    else if !NonBlankString(q) then SearchResult(BadRequest, [], [])
    else
      var user, query := caller.value, Trim(q.s);
      SearchResult(Ok, FirstTagged(folders, (id, f: Folder) => FolderHit(user, query, f), "folder"),
                       FirstTagged(files, (id, f: FileDoc) => FileHit(user, query, f), "file"))
  }

  /** Lower-casing commutes with taking a slice. */
  lemma LowerSlice(s: string, i: nat, j: nat)
    requires i <= j <= |s|
    ensures Lower(s)[i..j] == Lower(s[i..j])
  {
  }

  /** A name that contains the query verbatim is a hit, whatever the case
      conversion does to either. */
  lemma InfixMatches(name: string, q: string, i: int)
    requires InfixAt(q, name, i)
    ensures MatchesIgnoringCase(name, q)
  {
    LowerSlice(name, i, i + |q|);
    assert InfixAt(Lower(q), Lower(name), i);
  }

  /** The case of the query does not matter: a query and its lower-cased form
      find the same names. */
  lemma QueryCaseIrrelevant(name: string, q: string)
    ensures MatchesIgnoringCase(name, q) <==> MatchesIgnoringCase(name, Lower(q))
  {
    LowerIdempotent(q);
  }

  /** Surrounding white space in the query does not matter: the handler trims
      it, so a padded query finds exactly what the bare one finds. */
  lemma QueryPaddingIrrelevant(httpMethod: string, caller: Option<Id>, q: string,
                               folders: Collection<Folder>, files: Collection<FileDoc>)
    requires folders.Valid() && files.Valid()
    ensures Search(httpMethod, caller, Str(q), folders, files)
            == Search(httpMethod, caller, Str(Trim(q)), folders, files)
  {
    TrimIdempotent(q);
  }

  /** A folder of the caller named exactly as the query is found, unless the
      twenty-hit limit was reached first. */
  lemma ExactFolderNameFound(caller: Id, q: string, folders: Collection<Folder>, files: Collection<FileDoc>, id: Id)
    requires folders.Valid() && files.Valid()
    requires NonBlankString(Str(q))
    requires id in folders.docs && folders.docs[id].userId == caller && folders.docs[id].name == Trim(q)
    ensures var r := Search("GET", Some(caller), Str(q), folders, files);
            |r.folders| == Limit || Hit(Doc(id, folders.docs[id]), "folder") in r.folders
  {
    var name := folders.docs[id].name;
    assert name[0..|name|] == name;
    InfixMatches(name, Trim(q), 0);
  }
}
