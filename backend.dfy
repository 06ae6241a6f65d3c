/** The hosted backend the services talk to, seen from the outside: tables of rows with
    server-assigned ids and timestamps, and storage buckets of named objects. Every call
    may fail for reasons the caller cannot see (network, permissions, quotas); the model
    lets each call fail nondeterministically and says exactly what a failed call leaves
    behind. */
module Backend {
  import opened Wrappers
  import opened Text
  import opened Seqs

  /** A row id. The backend generates ids; the model numbers them from a counter. */
  type Id = nat

  /** A browser `File`: its base name, its size in bytes and its MIME type. */
  datatype File = File(name: string, size: nat, mimeType: string)

  /** A browser file name is a base name: it never holds a path separator. */
  predicate IsBaseName(f: File) {
    '/' !in f.name
  }

  /** What the services throw. Backend errors are not distinguished further. */
  datatype Error =
    | FileTooLarge(fileName: string)
    | NotAnImage(fileName: string)
    | LogoTooLarge
    | InvalidLogoType
    | StorageError
    | DatabaseError
    | MissingFields
    | NoProjectId
    | NoFileSelected

  datatype Result<T> = Ok(value: T) | Err(error: Error)

  /** A row as the backend returns it: the generated `id` and `created_at` columns
      around the fields the client supplied. */
  datatype Row<R> = Row(id: Id, createdAt: int, data: R)

  /** `getPublicUrl(path)` of a public bucket: a pure string computation, no request. */
  function PublicUrl(projectUrl: string, bucket: string, path: string): string {
    projectUrl + "/storage/v1/object/public/" + bucket + "/" + path
  }

  /** The last '/'-segment of a public URL is the object path, when the path is a
      single segment. This is what lets a service find an object again from its URL. */
  lemma LastSegmentOfPublicUrl(projectUrl: string, bucket: string, path: string)
    requires '/' !in path
    ensures SplitLast(PublicUrl(projectUrl, bucket, path), "/") == path
  {
    var p := projectUrl + "/storage/v1/object/public/" + bucket;
    assert PublicUrl(projectUrl, bucket, path) == p + ['/'] + path;
    SplitLastAfterChar(p, '/', path);
  }

  /** The object name the services store: a fresh token, a dot, and the last
      '.'-segment of the uploaded file's name. */
  function ObjectName(token: string, file: File): string {
    token + "." + SplitLast(file.name, ".")
  }

  lemma ObjectNameSegment(token: string, file: File)
    requires '/' !in token && IsBaseName(file)
    ensures ObjectName(token, file) != []
    ensures '/' !in ObjectName(token, file)
  {
    var ext := SplitLast(file.name, ".");
    SplitLastChars(file.name, ".", '/');
    assert ObjectName(token, file) == token + ['.'] + ext;
    assert ObjectName(token, file)[|token|] == '.';
  }

  const UuidAlphabet := "0123456789abcdef-"
  const Base36Alphabet := "0123456789abcdefghijklmnopqrstuvwxyz"

  predicate Over(t: string, alphabet: string) {
    forall i :: 0 <= i < |t| ==> t[i] in alphabet
  }

  lemma OverAt(t: string, alphabet: string, i: int)
    requires Over(t, alphabet) && 0 <= i < |t|
    ensures t[i] in alphabet
  {
  }

  /** `uuidv4()`: 36 characters of hexadecimal digits and dashes. Nothing more is assumed:
      in particular two calls may collide, and the bucket then refuses the second upload. */
  method Uuid() returns (t: string)
    ensures |t| == 36 && Over(t, UuidAlphabet)
    ensures '/' !in t && '.' !in t
  {
    var zeros := seq(36, _ => '0');
    assert Over(zeros, UuidAlphabet);
    t :| |t| == 36 && Over(t, UuidAlphabet);
    forall i | 0 <= i < |t| ensures t[i] != '/' && t[i] != '.' {
      OverAt(t, UuidAlphabet, i);
    }
  }

  /** `Math.random().toString(36).substring(2)`: the base-36 digits after "0.". */
  method RandomBase36() returns (t: string)
    ensures Over(t, Base36Alphabet)
    ensures '/' !in t && '.' !in t
  {
    assert Over([], Base36Alphabet);
    t :| Over(t, Base36Alphabet);
    forall i | 0 <= i < |t| ensures t[i] != '/' && t[i] != '.' {
      OverAt(t, Base36Alphabet, i);
    }
  }

  /** `${uuidv4()}.${fileExt}`: a fresh object name for a browser file. */
  method UuidObjectName(file: File) returns (name: string, token: string)
    requires IsBaseName(file)
    ensures |token| == 36 && Over(token, UuidAlphabet)
    ensures name == ObjectName(token, file) && name != [] && '/' !in name
  {
    token := Uuid();
    name := ObjectName(token, file);
    ObjectNameSegment(token, file);
  }

  /** The rows with ids below `n`, in id order. */
  function Enumerate<R>(rows: map<Id, Row<R>>, n: nat): seq<Row<R>> {
    if n == 0 then []
    else Enumerate(rows, n - 1) + (if n - 1 in rows then [rows[n - 1]] else [])
  }

  lemma {:induction false} EnumerateMembers<R>(rows: map<Id, Row<R>>, n: nat, x: Row<R>)
    ensures x in Enumerate(rows, n) <==> exists k :: k in rows && k < n && rows[k] == x
  {
    if n > 0 {
      EnumerateMembers(rows, n - 1, x);
      if n - 1 in rows && rows[n - 1] == x {
        assert x in Enumerate(rows, n);
      }
    }
  }

  /** `select * [where keep] order by key`: the kept rows, in ascending key order. */
  function Query<R>(rows: map<Id, Row<R>>, n: nat, keep: Row<R> -> bool, key: Row<R> -> int): seq<Row<R>> {
    SortBy(Filter(Enumerate(rows, n), keep), key)
  }

  /** A query returns exactly the stored rows that pass its filter, sorted by its key. */
  lemma QueryContents<R>(rows: map<Id, Row<R>>, n: nat, keep: Row<R> -> bool, key: Row<R> -> int, x: Row<R>)
    requires forall k :: k in rows ==> k < n
    ensures SortedBy(Query(rows, n, keep, key), key)
    ensures x in Query(rows, n, keep, key) <==> x in rows.Values && keep(x)
  {
    var e := Enumerate(rows, n);
    SortBySorted(Filter(e, keep), key);
    SortByElements(Filter(e, keep), key, x);
    FilterKeeps(e, keep, x);
    EnumerateMembers(rows, n, x);
  }

  function Everything<R>(r: Row<R>): bool {
    true
  }

  /** A table whose rows are keyed by their id. */
  class Table<R> {
    var rows: map<Id, Row<R>>
    /** The id the next insert gets. */
    var nextId: Id

    ghost predicate Valid()
      reads this
    {
      forall k :: k in rows ==> rows[k].id == k && k < nextId
    }

    constructor ()
      ensures Valid() && rows == map[]
    {
      rows := map[];
      nextId := 0;
    }

    /** `insert([data]).select().single()`: one new row with a fresh id and the current
        time, returned as stored. */
    method Insert(data: R) returns (r: Result<Row<R>>)
      requires Valid()
      modifies this
      ensures Valid()
      ensures r.Ok? ==> r.value.id !in old(rows) && r.value.data == data
                        && rows == old(rows)[r.value.id := r.value]
      ensures r.Err? ==> r.error == DatabaseError && rows == old(rows)
    {
      var failed: bool := *;
      if failed {
        return Err(DatabaseError);
      }
      var now: int := *;
      var row := Row(nextId, now, data);
      rows := rows[nextId := row];
      nextId := nextId + 1;
      r := Ok(row);
    }

    /** `update(patch).eq('id', id).select().single()`: `single()` turns "no such row"
        into an error. Only the client fields change. */
    method Update(id: Id, patch: R -> R) returns (r: Result<Row<R>>)
      requires Valid()
      modifies this`rows
      ensures Valid()
      ensures id !in old(rows) ==> r.Err?
      ensures r.Ok? ==> id in old(rows) && r.value == old(rows)[id].(data := patch(old(rows)[id].data))
                        && rows == old(rows)[id := r.value]
      ensures r.Err? ==> r.error == DatabaseError && rows == old(rows)
    {
      var failed: bool := *;
      if failed || id !in rows {
        return Err(DatabaseError);
      }
      var row := rows[id].(data := patch(rows[id].data));
      rows := rows[id := row];
      r := Ok(row);
    }

    /** `delete().eq('id', id)`: deleting an id that is not there is not an error. */
    method Delete(id: Id) returns (ok: bool)
      requires Valid()
      modifies this`rows
      ensures Valid()
      ensures rows == if ok then old(rows) - {id} else old(rows)
    {
      ok := *;
      if ok {
        rows := rows - {id};
      }
    }

    /** `select('*')`, filtered by `keep` and ordered by `key`. */
    method Select(keep: Row<R> -> bool, key: Row<R> -> int) returns (r: Result<seq<Row<R>>>)
      requires Valid()
      ensures r.Ok? ==> r.value == Query(rows, nextId, keep, key)
      ensures r.Err? ==> r.error == DatabaseError
    {
      var failed: bool := *;
      if failed {
        return Err(DatabaseError);
      }
      r := Ok(Query(rows, nextId, keep, key));
    }
  }

  /** A public storage bucket: a set of object names. */
  class Bucket {
    const name: string
    const projectUrl: string
    var objects: set<string>
    /** How many removal requests have failed so far; only the model keeps this count. */
    ghost var failedRemovals: nat

    constructor (name: string, projectUrl: string)
      ensures this.name == name && this.projectUrl == projectUrl
      ensures objects == {} && failedRemovals == 0
    {
      this.name := name;
      this.projectUrl := projectUrl;
      objects := {};
      failedRemovals := 0;
    }

    function UrlOf(path: string): string
    {
      PublicUrl(projectUrl, name, path)
    }

    /** `upload(path, file)` without `upsert`: an existing object is never overwritten. */
    method Upload(path: string) returns (ok: bool)
      modifies this`objects
      ensures ok ==> path !in old(objects) && objects == old(objects) + {path}
      ensures !ok ==> objects == old(objects)
    {
      var failed: bool := *;
      ok := !failed && path !in objects;
      if ok {
        objects := objects + {path};
      }
    }

    /** `remove(paths)`: all of them or, on error, none. Missing names are not an error. */
    method Remove(paths: seq<string>) returns (ok: bool)
      modifies this`objects, this`failedRemovals
      ensures ok ==> objects == old(objects) - SetOf(paths) && failedRemovals == old(failedRemovals)
      ensures !ok ==> objects == old(objects) && failedRemovals == old(failedRemovals) + 1
    {
      ok := *;
      if ok {
        objects := objects - SetOf(paths);
      } else {
        failedRemovals := failedRemovals + 1;
      }
    }
  }
}
