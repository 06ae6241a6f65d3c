/** The portfolio service: projects in the `portfolio_items` table, their photos in the
    `portfolio-images` bucket. */
module PortfolioService {
  import opened Wrappers
  import opened Text
  import opened Seqs
  import opened Backend

  /** The client-supplied columns of a `portfolio_items` row. */
  datatype Project = Project(
    title: string,
    category: string,
    year: string,
    description: string,
    location: Option<string>,
    client: Option<string>,
    status: Option<string>,
    images: seq<string>)

  /** `Partial<PortfolioItem>`: the fields an update sets; `None` leaves a field alone. */
  datatype ProjectPatch = ProjectPatch(
    title: Option<string>,
    category: Option<string>,
    year: Option<string>,
    description: Option<string>,
    location: Option<string>,
    client: Option<string>,
    status: Option<string>,
    images: Option<seq<string>>)

  function ApplyPatch(p: Project, u: ProjectPatch): Project {
    Project(
      u.title.GetOr(p.title),
      u.category.GetOr(p.category),
      u.year.GetOr(p.year),
      u.description.GetOr(p.description),
      if u.location.Some? then u.location else p.location,
      if u.client.Some? then u.client else p.client,
      if u.status.Some? then u.status else p.status,
      u.images.GetOr(p.images))
  }

  /** Applying the same update twice is applying it once, and an empty update is no
      change. */
  lemma ApplyPatchIdempotent(p: Project, u: ProjectPatch)
    ensures ApplyPatch(ApplyPatch(p, u), u) == ApplyPatch(p, u)
    ensures ApplyPatch(p, ProjectPatch(None, None, None, None, None, None, None, None)) == p
  {
  }

  const MaxImageSize := 5 * 1024 * 1024

  /** Why one file is refused: the size is checked before the type. */
  function Rejection(f: File): (e: Option<Error>)
    ensures e.None? <==> f.size <= MaxImageSize && StartsWith(f.mimeType, "image/")
    ensures f.size > MaxImageSize ==> e == Some(FileTooLarge(f.name))
    ensures f.size <= MaxImageSize && !StartsWith(f.mimeType, "image/") ==> e == Some(NotAnImage(f.name))
  {
    if f.size > MaxImageSize then Some(FileTooLarge(f.name))
    else if !StartsWith(f.mimeType, "image/") then Some(NotAnImage(f.name))
    else None
  }

  /** The refusal of the first file, in input order, that is refused. */
  function FirstRejection(files: seq<File>): Option<Error> {
    if files == [] then None
    else if Rejection(files[0]).Some? then Rejection(files[0])
    else FirstRejection(files[1..])
  }

  /** The batch passes exactly when every file passes; otherwise the error is that of a
      file all of whose predecessors pass. */
  lemma {:induction false} FirstRejectionIsFirst(files: seq<File>)
    ensures FirstRejection(files).None? <==> forall i :: 0 <= i < |files| ==> Rejection(files[i]).None?
    ensures FirstRejection(files).Some? ==>
      exists i :: 0 <= i < |files| && FirstRejection(files) == Rejection(files[i])
               && forall j :: 0 <= j < i ==> Rejection(files[j]).None?
  {
    if files != [] {
      FirstRejectionIsFirst(files[1..]);
      if Rejection(files[0]).None? {
        if FirstRejection(files).Some? {
          var i :| 0 <= i < |files[1..]| && FirstRejection(files[1..]) == Rejection(files[1..][i])
                   && forall j :: 0 <= j < i ==> Rejection(files[1..][j]).None?;
          assert files[i + 1] == files[1..][i];
          forall j | 0 <= j < i + 1 ensures Rejection(files[j]).None? {
            if j > 0 {
              assert files[j] == files[1..][j - 1];
            }
          }
        } else {
          forall i | 0 <= i < |files| ensures Rejection(files[i]).None? {
            if i > 0 {
              assert files[i] == files[1..][i - 1];
            }
          }
        }
      }
    }
  }

  /** The validation loop: the first refusal, or none. */
  method ValidateImages(files: seq<File>) returns (e: Option<Error>)
    ensures e == FirstRejection(files)
  {
    var i := 0;
    while i < |files|
      invariant 0 <= i <= |files|
      invariant FirstRejection(files) == FirstRejection(files[i..])
    {
      assert files[i..][1..] == files[i + 1..];
      var r := Rejection(files[i]);
      if r.Some? {
        return r;
      }
      i := i + 1;
    }
    assert files[i..] == [];
    e := None;
  }

  /** The public URLs of the named objects, in order. */
  function Urls(projectUrl: string, bucket: string, names: seq<string>): (urls: seq<string>)
    ensures |urls| == |names|
  {
    if names == [] then [] else [PublicUrl(projectUrl, bucket, names[0])] + Urls(projectUrl, bucket, names[1..])
  }

  lemma {:induction false} UrlsAt(projectUrl: string, bucket: string, names: seq<string>, k: nat)
    requires k < |names|
    ensures Urls(projectUrl, bucket, names)[k] == PublicUrl(projectUrl, bucket, names[k])
  {
    if k > 0 {
      UrlsAt(projectUrl, bucket, names[1..], k - 1);
    }
  }

  /** `urls.map(url => url.split('/').pop()).filter(Boolean)`. */
  function FileNames(urls: seq<string>): (names: seq<string>)
    ensures forall n :: n in names ==> n != [] && '/' !in n
  {
    if urls == [] then []
    else
      var n := SplitLast(urls[0], "/");
      IndexOfChar(n, '/');
      (if n != [] then [n] else []) + FileNames(urls[1..])
  }

  /** Each name is a single non-empty path segment. */
  predicate Segments(names: seq<string>) {
    forall i :: 0 <= i < |names| ==> names[i] != [] && '/' !in names[i]
  }

  /** `stored[i]` is the object name made for `files[i]` from the fresh id `tokens[i]`. */
  ghost predicate NamedAfter(stored: seq<string>, tokens: seq<string>, files: seq<File>) {
    |stored| == |tokens| == |files|
    && forall i :: 0 <= i < |files| ==>
         |tokens[i]| == 36 && Over(tokens[i], UuidAlphabet) && stored[i] == ObjectName(tokens[i], files[i])
  }

  lemma NamedAfterSnoc(stored: seq<string>, tokens: seq<string>, files: seq<File>, i: nat, token: string)
    requires i < |files| && NamedAfter(stored, tokens, files[..i])
    requires |token| == 36 && Over(token, UuidAlphabet)
    ensures NamedAfter(stored + [ObjectName(token, files[i])], tokens + [token], files[..i + 1])
  {
    var s', t', f' := stored + [ObjectName(token, files[i])], tokens + [token], files[..i + 1];
    forall k | 0 <= k < |f'|
      ensures |t'[k]| == 36 && Over(t'[k], UuidAlphabet) && s'[k] == ObjectName(t'[k], f'[k])
    {
      if k < i {
        assert f'[k] == files[..i][k] && s'[k] == stored[k] && t'[k] == tokens[k];
      } else {
        assert f'[k] == files[i] && s'[k] == ObjectName(token, files[i]) && t'[k] == token;
      }
    }
  }

  lemma SegmentsSnoc(names: seq<string>, name: string)
    requires Segments(names) && name != [] && '/' !in name
    ensures Segments(names + [name])
  {
  }

  /** The names a delete derives from a project's URLs are the names its create stored. */
  lemma {:induction false} FileNamesOfUrls(projectUrl: string, bucket: string, names: seq<string>)
    requires Segments(names)
    ensures FileNames(Urls(projectUrl, bucket, names)) == names
  {
    if names != [] {
      LastSegmentOfPublicUrl(projectUrl, bucket, names[0]);
      FileNamesOfUrls(projectUrl, bucket, names[1..]);
    }
  }

  /** `order('created_at', { ascending: false })`. */
  function NewestFirst(r: Row<Project>): int {
    -r.createdAt
  }

  /** The listing is newest first and holds every project exactly when it is stored. */
  lemma ListingNewestFirst(rows: map<Id, Row<Project>>, n: nat, x: Row<Project>)
    requires forall k :: k in rows ==> k < n
    ensures var l := Query(rows, n, Everything, NewestFirst);
      (forall i, j :: 0 <= i < j < |l| ==> l[i].createdAt >= l[j].createdAt)
      && (x in l <==> x in rows.Values)
  {
    var l := Query(rows, n, Everything, NewestFirst);
    QueryContents(rows, n, Everything, NewestFirst, x);
    forall i, j | 0 <= i < j < |l| ensures l[i].createdAt >= l[j].createdAt {
      assert NewestFirst(l[i]) <= NewestFirst(l[j]);
    }
  }

  /** Removing, from a bucket that gained `added`, all of `added` but `kept` leaves the
      bucket as it was plus `kept`. */
  lemma CleanupLeaves(before: set<string>, added: set<string>, kept: set<string>)
    requires added !! before && kept <= added
    ensures (before + added) - (added - kept) == before + kept
    ensures kept !! before
  {
  }

  class Service {
    const items: Table<Project>
    const images: Bucket

    ghost predicate Valid()
      reads this, items, images
    {
      items.Valid() && images.name == "portfolio-images"
    }

    constructor (projectUrl: string)
      ensures Valid() && fresh(items) && fresh(images)
      ensures items.rows == map[] && images.objects == {} && images.projectUrl == projectUrl
    {
      items := new Table();
      images := new Bucket("portfolio-images", projectUrl);
    }

    /** `fetchProjects`: all projects, newest first. */
    method FetchProjects() returns (r: Result<seq<Row<Project>>>)
      requires Valid()
      ensures r.Ok? ==> r.value == Query(items.rows, items.nextId, Everything, NewestFirst)
    {
      r := items.Select(Everything, NewestFirst);
    }

    /** One step of the cleanup loop: the last '/'-segment of the URL, if non-empty, is
        removed in a request whose failure is ignored. */
    method RemoveNamed(url: string, ghost name: string) returns (ghost kept: bool)
      requires Valid()
      requires url == images.UrlOf(name) && name != [] && '/' !in name
      modifies images`objects, images`failedRemovals
      ensures kept ==> images.objects == old(images.objects) && images.failedRemovals == old(images.failedRemovals) + 1
      ensures !kept ==> images.objects == old(images.objects) - {name} && images.failedRemovals == old(images.failedRemovals)
    {
      var fileName := SplitLast(url, "/");
      LastSegmentOfPublicUrl(images.projectUrl, images.name, name);
      kept := false;
      if fileName != [] {
        var ok := images.Remove([fileName]);
        kept := !ok;
      }
    }

    /** The cleanup loop: removes, one request per URL, the object each URL names.
        Removal errors are ignored, so the objects whose removal failed stay behind. */
    method RemoveUploaded(urls: seq<string>, ghost stored: seq<string>) returns (ghost leaked: set<string>)
      requires Valid()
      requires urls == Urls(images.projectUrl, images.name, stored)
      requires Segments(stored) && Distinct(stored)
      modifies images`objects, images`failedRemovals
      ensures leaked <= SetOf(stored)
      ensures images.objects == old(images.objects) - (SetOf(stored) - leaked)
      ensures images.failedRemovals >= old(images.failedRemovals)
      ensures images.failedRemovals == old(images.failedRemovals) ==> leaked == {}
    {
      leaked := {};
      var i := 0;
      while i < |urls|
        invariant 0 <= i <= |urls|
        invariant leaked <= SetOf(stored[..i])
        invariant images.objects == old(images.objects) - (SetOf(stored[..i]) - leaked)
        invariant images.failedRemovals >= old(images.failedRemovals)
        invariant images.failedRemovals == old(images.failedRemovals) ==> leaked == {}
      {
        ghost var name := stored[i];
        SetOfSnoc(stored[..i], name);
        assert stored[..i + 1] == stored[..i] + [name];
        assert name !in SetOf(stored[..i]);
        UrlsAt(images.projectUrl, images.name, stored, i);
        var kept := RemoveNamed(urls[i], name);
        if kept {
          leaked := leaked + {name};
        }
        i := i + 1;
      }
      assert stored[..i] == stored;
    }

    /** One upload: the file goes to a fresh name made from a new UUID and the file's
        extension. */
    method UploadFile(file: File) returns (name: Option<string>, token: string)
      requires Valid() && IsBaseName(file)
      modifies images`objects
      ensures |token| == 36 && Over(token, UuidAlphabet)
      ensures name.Some? ==>
        name.value == ObjectName(token, file) && name.value != [] && '/' !in name.value
        && name.value !in old(images.objects) && images.objects == old(images.objects) + {name.value}
      ensures name.None? ==> images.objects == old(images.objects)
    {
      var path;
      path, token := UuidObjectName(file);
      var ok := images.Upload(path);
      name := if ok then Some(path) else None;
    }

    /** The cleanup of the upload loop: the objects stored so far are removed again, and
        the ones whose removal failed stay behind. */
    method AbortUploads(done: seq<string>, ghost stored: seq<string>, ghost before: set<string>)
      returns (ghost leaked: set<string>)
      requires Valid()
      requires done == Urls(images.projectUrl, images.name, stored)
      requires Segments(stored) && Distinct(stored) && SetOf(stored) !! before
      requires images.objects == before + SetOf(stored)
      modifies images`objects, images`failedRemovals
      ensures Valid()
      ensures leaked <= SetOf(stored)
      ensures leaked !! before && images.objects == before + leaked
      ensures images.failedRemovals == old(images.failedRemovals) ==> leaked == {}
    {
      leaked := RemoveUploaded(done, stored);
      CleanupLeaves(before, SetOf(stored), leaked);
    }

    /** The upload loop: one object per file, in order, each under a fresh name; when an
        upload fails, the objects this loop stored are removed again and it fails. */
    method UploadAll(files: seq<File>)
      returns (urls: Option<seq<string>>, ghost stored: seq<string>, ghost tokens: seq<string>, ghost leaked: set<string>)
      requires Valid()
      requires forall f :: f in files ==> IsBaseName(f)
      modifies images`objects, images`failedRemovals
      ensures Valid()
      ensures Segments(stored) && Distinct(stored) && SetOf(stored) !! old(images.objects)
      ensures urls.Some? ==>
        NamedAfter(stored, tokens, files)
        && urls.value == Urls(images.projectUrl, images.name, stored)
        && images.objects == old(images.objects) + SetOf(stored)
        && images.failedRemovals == old(images.failedRemovals)
        && leaked == {}
      ensures urls.None? ==>
        leaked <= SetOf(stored) && leaked !! old(images.objects)
        && images.objects == old(images.objects) + leaked
        && (images.failedRemovals == old(images.failedRemovals) ==> leaked == {})
    {
      stored, tokens, leaked := [], [], {};
      var done: seq<string> := [];
      var i := 0;
      while i < |files|
        invariant 0 <= i <= |files|
        invariant NamedAfter(stored, tokens, files[..i])
        invariant done == Urls(images.projectUrl, images.name, stored)
        invariant Segments(stored) && Distinct(stored) && SetOf(stored) !! old(images.objects)
        invariant images.objects == old(images.objects) + SetOf(stored)
        invariant images.failedRemovals == old(images.failedRemovals)
      {
        var uploaded, token := UploadFile(files[i]);
        if uploaded.None? {
          leaked := AbortUploads(done, stored, old(images.objects));
          return None, stored, tokens, leaked;
        }
        var name := uploaded.value;
        UploadStep(images.projectUrl, images.name, stored, tokens, files, i, name, token, old(images.objects));
        done := done + [images.UrlOf(name)];
        stored := stored + [name];
        tokens := tokens + [token];
        i := i + 1;
      }
      assert files[..i] == files;
      urls := Some(done);
    }

    /** `createProject`: validate every file, upload them one by one, insert the row; a
        failed upload or insert removes what this call uploaded and fails. */
    method CreateProject(title: string, category: string, year: string, description: string,
                         location: string, client: string, status: string, files: seq<File>)
      returns (r: Result<Row<Project>>, ghost stored: seq<string>, ghost tokens: seq<string>,
               ghost leaked: set<string>)
      requires Valid()
      requires forall f :: f in files ==> IsBaseName(f)
      modifies items, images
      ensures Valid()
      ensures FirstRejection(files).Some? ==>
        r == Err(FirstRejection(files).value)
        && items.rows == old(items.rows) && images.objects == old(images.objects)
      ensures r.Ok? ==>
        FirstRejection(files).None?
        && NamedAfter(stored, tokens, files) && Distinct(stored)
        && SetOf(stored) !! old(images.objects)
        && images.objects == old(images.objects) + SetOf(stored)
        && r.value.data == Project(title, category, year, description, Some(location), Some(client),
                                   Some(status), Urls(images.projectUrl, images.name, stored))
        && r.value.id !in old(items.rows)
        && items.rows == old(items.rows)[r.value.id := r.value]
      ensures r.Err? ==>
        items.rows == old(items.rows)
        && leaked <= SetOf(stored) && leaked !! old(images.objects)
        && images.objects == old(images.objects) + leaked
      ensures images.failedRemovals == old(images.failedRemovals) ==> leaked == {}
    {
      stored, tokens, leaked := [], [], {};
      var rejected := ValidateImages(files);
      if rejected.Some? {
        return Err(rejected.value), stored, tokens, leaked;
      }
      var urls;
      urls, stored, tokens, leaked := UploadAll(files);
      if urls.None? {
        return Err(StorageError), stored, tokens, leaked;
      }
      ghost var uploaded := images.objects;
      var row := items.Insert(Project(title, category, year, description, Some(location), Some(client),
                                      Some(status), urls.value));
      assert images.objects == uploaded && images.failedRemovals == old(images.failedRemovals);
      if row.Err? {
        leaked := RemoveUploaded(urls.value, stored);
        CleanupLeaves(old(images.objects), SetOf(stored), leaked);
        return Err(DatabaseError), stored, tokens, leaked;
      }
      r := row;
    }

    /** `updateProject`: the row with that id takes the given fields; storage is not
        touched. */
    method UpdateProject(id: Id, patch: ProjectPatch) returns (r: Result<Row<Project>>)
      requires Valid()
      modifies items`rows
      ensures Valid()
      ensures id !in old(items.rows) ==> r.Err?
      ensures r.Ok? ==>
        id in old(items.rows)
        && r.value == old(items.rows)[id].(data := ApplyPatch(old(items.rows)[id].data, patch))
        && items.rows == old(items.rows)[id := r.value]
      ensures r.Err? ==> items.rows == old(items.rows)
      ensures images.objects == old(images.objects)
    {
      r := items.Update(id, p => ApplyPatch(p, patch));
    }

    /** `deleteProject`: the row goes first; then the objects the URLs name are removed
        in one request whose failure is only logged. */
    method DeleteProject(id: Id, imageUrls: seq<string>) returns (r: Result<()>)
      requires Valid()
      modifies items`rows, images`objects, images`failedRemovals
      ensures Valid()
      ensures r.Err? ==> items.rows == old(items.rows) && images.objects == old(images.objects)
      ensures r.Ok? ==> items.rows == old(items.rows) - {id}
      ensures r.Ok? && images.failedRemovals == old(images.failedRemovals) ==>
        images.objects == old(images.objects) - SetOf(FileNames(imageUrls))
      ensures r.Ok? && images.failedRemovals != old(images.failedRemovals) ==>
        images.objects == old(images.objects)
    {
      var ok := items.Delete(id);
      if !ok {
        return Err(DatabaseError);
      }
      var names := FileNames(imageUrls);
      if |names| > 0 {
        var removed := images.Remove(names);
      }
      r := Ok(());
    }
  }

  /** Appending a name appends its URL. */
  lemma {:induction false} UrlsSnoc(projectUrl: string, bucket: string, names: seq<string>, name: string)
    ensures Urls(projectUrl, bucket, names + [name]) == Urls(projectUrl, bucket, names) + [PublicUrl(projectUrl, bucket, name)]
  {
    if names != [] {
      assert (names + [name])[1..] == names[1..] + [name];
      UrlsSnoc(projectUrl, bucket, names[1..], name);
    }
  }

  /** One more successful upload extends every fact the upload loop keeps. */
  lemma UploadStep(projectUrl: string, bucket: string, stored: seq<string>, tokens: seq<string>,
                   files: seq<File>, i: nat, name: string, token: string, before: set<string>)
    requires i < |files| && NamedAfter(stored, tokens, files[..i])
    requires Segments(stored) && Distinct(stored) && SetOf(stored) !! before
    requires |token| == 36 && Over(token, UuidAlphabet) && name == ObjectName(token, files[i])
    requires name != [] && '/' !in name && name !in before + SetOf(stored)
    ensures NamedAfter(stored + [name], tokens + [token], files[..i + 1])
    ensures Urls(projectUrl, bucket, stored + [name]) == Urls(projectUrl, bucket, stored) + [PublicUrl(projectUrl, bucket, name)]
    ensures Segments(stored + [name]) && Distinct(stored + [name])
    ensures SetOf(stored + [name]) == SetOf(stored) + {name} && SetOf(stored + [name]) !! before
  {
    UrlsSnoc(projectUrl, bucket, stored, name);
    SetOfSnoc(stored, name);
    NamedAfterSnoc(stored, tokens, files, i, token);
    SegmentsSnoc(stored, name);
    assert name !in stored by {
      assert forall x :: x in stored ==> x in SetOf(stored);
    }
    DistinctSnoc(stored, name);
  }
}
