/**
 The slice of the file system the scaffolding and the start-up check touch:
 a tree of clean relative paths (no leading `/`, no `.` or `..` segments,
 no doubled or trailing `/`), each a directory or a file.

 Operations are modelled by what they guarantee when they succeed; whether
 they succeed is decided by the caller (see the generator's faults).
 */
module FileSystem {
  import opened Errors
  import opened Text

  /** What a generated file holds: nothing yet (just created), the complete
      rendering of a template for an application name, or the part of it
      written before rendering failed. */
  datatype Content =
    | Blank
    | Rendered(template: string, appName: string)
    | Partial(template: string, appName: string)

  datatype Entry = Directory | File(content: Content)

  /** The entries under the working directory, keyed by relative path. */
  type Tree = map<string, Entry>

  /** `filepath.Dir` on a clean relative path: everything before the last
      `/`, or `.` for a path in the working directory itself. */
  function Dir(p: string): (d: string)
    ensures '/' !in p ==> d == "."
    ensures '/' in p ==> |d| < |p| && p[|d|] == '/' && d == p[..|d|] && '/' !in p[|d| + 1..]
  {
    match LastIndex(p, '/')
    case None => "."
    case Some(i) => p[..i]
  }

  /** `d` is the directory part of `d/name` when `name` has no `/`. */
  lemma DirOf(d: string, name: string)
    requires '/' !in name
    ensures Dir(d + "/" + name) == d
  {
    assert d + "/" + name == d + ['/'] + name;
    LastIndexAt(d, '/', name);
    assert (d + "/" + name)[..|d|] == d;
  }

  /** The directories `os.MkdirAll(p)` guarantees: `p` and each of its
      ancestors, that is every prefix ending just before a `/`. The
      working directory `.` itself always exists. */
  function DirsOn(p: string): set<string>
  {
    if p == "." then {}
    else set i | 0 < i <= |p| && (i == |p| || p[i] == '/') :: p[..i]
  }

  /** Every directory on the way to `p` is a prefix of `p`. */
  lemma DirsOnArePrefixes(p: string, q: string)
    requires q in DirsOn(p)
    ensures |q| <= |p| && q == p[..|q|]
  {
  }

  /** A character absent from `p` is absent from every directory on the
      way to it. */
  lemma DirsOnAvoid(p: string, q: string, ch: char)
    requires q in DirsOn(p) && ch !in p
    ensures ch !in q
  {
    DirsOnArePrefixes(p, q);
  }

  /** A non-empty path other than `.` is on its own way. */
  lemma DirsOnSelf(p: string)
    requires p != "." && p != ""
    ensures p in DirsOn(p)
  {
    assert p[..|p|] == p;
  }

  /** `os.MkdirAll(p)` succeeded: `p` and its ancestors are directories,
      everything else is as it was. */
  function MakeDirs(t: Tree, p: string): (r: Tree)
    ensures forall q :: q in DirsOn(p) ==> q in r && r[q] == Directory
    ensures forall q :: q !in DirsOn(p) ==> (q in r <==> q in t)
    ensures forall q :: q !in DirsOn(p) && q in t ==> r[q] == t[q]
  {
    t + map q | q in DirsOn(p) :: Directory
  }

  /** Making the same directories twice changes nothing the second time. */
  lemma MakeDirsIdempotent(t: Tree, p: string)
    ensures MakeDirs(MakeDirs(t, p), p) == MakeDirs(t, p)
  {
  }

  /** `os.Create(p)` succeeded: `p` is an empty file, everything else is as
      it was. */
  function CreateFile(t: Tree, p: string): (r: Tree)
    ensures p in r && r[p] == File(Blank)
    ensures forall q :: q != p ==> (q in r <==> q in t)
    ensures forall q :: q != p && q in t ==> r[q] == t[q]
  {
    t[p := File(Blank)]
  }

  /** What `os.Stat` reports for a path: the entry, its absence, or some
      other failure (a permission error, say). */
  datatype StatResult = Exists(entry: Entry) | NotExist | StatFailed

  /** `os.Stat(p)` where the paths in `unreadable` cannot be examined. */
  function Stat(t: Tree, unreadable: set<string>, p: string): (r: StatResult)
    ensures r.NotExist? <==> p !in unreadable && p !in t
    ensures r.Exists? <==> p !in unreadable && p in t
    ensures r.Exists? ==> r.entry == t[p]
  {
    if p in unreadable then StatFailed
    else if p in t then Exists(t[p])
    else NotExist
  }
}
