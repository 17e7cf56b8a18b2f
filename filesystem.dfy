/**
 * The filesystem the service works on: a set of directories and a map from
 * file paths to contents, with the operations `pathlib` offers on them.
 * JSON files hold the value they encode: `json.dumps` followed by
 * `json.loads` is taken to give the value back.
 */
module FileSystem {
  import opened Wrappers
  import opened Paths
  import opened Values

  type byte = x: int | 0 <= x < 256

  datatype Content =
    | TextFile(text: string)
    | BytesFile(data: seq<byte>)
    | JsonFile(doc: Value)

  /** The `OSError` subclasses the operations raise, with the path concerned. */
  datatype IoError =
    | FileExists(path: Path)
    | NotADirectory(path: Path)
    | IsADirectory(path: Path)
    | FileNotFound(path: Path)
    | JsonDecode(path: Path)

  /** Something done to a file, in the order it happened. */
  datatype Event = Wrote(path: Path) | Removed(path: Path)

  /** Every proper prefix of `p`, and `p` itself. */
  function Prefixes(p: Path): (r: set<Path>)
    ensures forall k :: 0 <= k <= |p| ==> p[..k] in r
    ensures forall q :: q in r ==> |q| <= |p| && q == p[..|q|]
  {
    set k | 0 <= k <= |p| :: p[..k]
  }

  /** A path's prefixes are among those of any longer path it begins. */
  lemma PrefixesGrow(p: Path, q: Path)
    ensures Prefixes(p) <= Prefixes(p + q)
  {
    forall x | x in Prefixes(p) ensures x in Prefixes(p + q) {
      assert x == (p + q)[..|x|];
    }
  }

  /** `f` is `p` or one of its ancestors. */
  predicate Begins(f: Path, p: Path) {
    |f| <= |p| && p[..|f|] == f
  }

  /** Some prefix of `p`, `p` included, is a file in `files`. */
  predicate Blocked(files: map<Path, Content>, p: Path) {
    exists k | 0 <= k <= |p| :: p[..k] in files
  }

  /** Writing or removing a file that does not begin `p` neither blocks nor unblocks it. */
  lemma BlockedAfterWrite(files: map<Path, Content>, f: Path, c: Content, p: Path)
    requires !Begins(f, p)
    ensures Blocked(files[f := c], p) == Blocked(files, p)
    ensures Blocked(files - {f}, p) == Blocked(files, p)
  {
    if Blocked(files[f := c], p) || Blocked(files - {f}, p) {
      var k :| 0 <= k <= |p| && (p[..k] in files[f := c] || p[..k] in files - {f});
      assert p[..k] != f;
    }
  }

  /** `after` keeps every directory of `before` and adds none outside `added`. */
  ghost predicate GrowsWithin(before: set<Path>, after: set<Path>, added: set<Path>) {
    forall d {:trigger d in after} :: (d in before ==> d in after) && (d in after ==> d in before || d in added)
  }

  lemma GrowsWithinOf(before: set<Path>, after: set<Path>, added: set<Path>)
    requires before <= after <= before + added
    ensures GrowsWithin(before, after, added)
  {
  }

  lemma GrowsWithinMore(before: set<Path>, after: set<Path>, added: set<Path>, more: set<Path>)
    requires GrowsWithin(before, after, added)
    ensures GrowsWithin(before, after, more + added)
  {
  }

  /** `after` has the same files as `before`, with the same contents, everywhere outside `touched`. */
  ghost predicate SameOutside(before: map<Path, Content>, after: map<Path, Content>, touched: set<Path>) {
    forall p :: p !in touched ==> (p in after <==> p in before) && (p in before ==> after[p] == before[p])
  }

  /** Two steps that each keep everything outside their paths keep everything outside both. */
  lemma SameOutsideTrans(a: map<Path, Content>, b: map<Path, Content>, c: map<Path, Content>, t: set<Path>, u: set<Path>)
    requires SameOutside(a, b, t) && SameOutside(b, c, u)
    ensures SameOutside(a, c, t + u)
  {
  }

  /** Writing `p` after touching only `t` touches only `t` and `p`; so does not writing it. */
  lemma SameOutsideThenWrite(a: map<Path, Content>, b: map<Path, Content>, t: set<Path>, p: Path, c: Content)
    requires SameOutside(a, b, t)
    ensures SameOutside(a, b[p := c], t + {p}) && SameOutside(a, b, t + {p})
  {
  }

  /** A step touching only `p`, then one touching `t` and `p`, together touch `t` and `p`. */
  lemma SameOutsideAbsorbs(a: map<Path, Content>, b: map<Path, Content>, c: map<Path, Content>, p: Path, t: set<Path>)
    requires SameOutside(a, b, {p}) && SameOutside(b, c, t + {p})
    ensures SameOutside(a, c, t + {p})
  {
  }

  /** What the text file `p` holds; nothing when there is none. */
  function TextIn(files: map<Path, Content>, p: Path): string {
    if p in files && files[p].TextFile? then files[p].text else ""
  }

  /** The parent of a non-empty path. */
  function Parent(p: Path): Path
    requires p != []
  {
    p[..|p| - 1]
  }

  /** `json.loads(p.read_text())` on the tree with directories `dirs` and files `files`. */
  function JsonIn(dirs: set<Path>, files: map<Path, Content>, p: Path): Result<Value, IoError> {
    if p in files then
      if files[p].JsonFile? then Success(files[p].doc) else Failure(JsonDecode(p))
    else if p in dirs then Failure(IsADirectory(p))
    else Failure(FileNotFound(p))
  }

  class FileSystem {
    var dirs: set<Path>
    var files: map<Path, Content>
    /** What has been done to files so far. */
    ghost var log: seq<Event>

    /**
     * The tree is well formed: the root is a directory, every directory's
     * parent is one, every file lives in a directory and no path is both.
     */
    ghost predicate Valid()
      reads this
    {
      && [] in dirs
      && (forall d :: d in dirs && d != [] ==> Parent(d) in dirs)
      && (forall f :: f in files ==> f != [] && Parent(f) in dirs && f !in dirs)
    }

    constructor ()
      ensures Valid() && dirs == {[]} && files == map[] && log == []
    {
      dirs := {[]};
      files := map[];
      log := [];
    }

    /** Some prefix of `p`, `p` included, is a file. */
    predicate BlockedByFile(p: Path)
      reads this
    {
      Blocked(files, p)
    }

    /** Being under a file blocks every path below too. */
    lemma BlockedGrows(p: Path, q: Path)
      requires BlockedByFile(p)
      ensures BlockedByFile(p + q)
    {
      var k :| 0 <= k <= |p| && p[..k] in files;
      assert (p + q)[..k] == p[..k];
    }

    /** An existing directory has all its ancestors as directories and none as a file. */
    lemma {:induction false} DirPrefixes(p: Path)
      requires Valid() && p in dirs
      ensures Prefixes(p) <= dirs
      ensures !BlockedByFile(p)
      decreases |p|
    {
      if p != [] {
        DirPrefixes(Parent(p));
        forall x | x in Prefixes(p) ensures x in dirs {
          if |x| < |p| {
            assert x == Parent(p)[..|x|];
            assert x in Prefixes(Parent(p));
          } else {
            assert x == p[..|p|] == p;
          }
        }
      }
      forall k | 0 <= k <= |p| ensures p[..k] !in files {
        assert p[..k] in Prefixes(p);
      }
    }

    /**
     * `p.mkdir(parents=True, exist_ok=True)`: creates `p` and any missing
     * ancestors, and does nothing when they all exist. It fails without
     * creating anything when `p` or one of its ancestors is a file.
     */
    method MkDirs(p: Path) returns (r: Outcome<IoError>)
      requires Valid()
      modifies this`dirs
      ensures Valid()
      ensures r.Pass? <==> !BlockedByFile(p)
      ensures r.Pass? ==> dirs == old(dirs) + Prefixes(p)
      ensures r.Fail? ==> dirs == old(dirs)
      ensures r.Fail? ==> r.error == if p in files then FileExists(p) else NotADirectory(p)
    {
      if exists k | 0 <= k <= |p| :: p[..k] in files {
        if p in files {
          r := Fail(FileExists(p));
        } else {
          r := Fail(NotADirectory(p));
        }
      } else {
        dirs := dirs + Prefixes(p);
        r := Pass;
        forall d | d in dirs && d != [] ensures Parent(d) in dirs {
          if d in Prefixes(p) {
            assert Parent(d) == p[..|d| - 1];
          }
        }
      }
    }

    /**
     * `p.write_text(...)` / `p.write_bytes(...)`: creates or replaces the
     * file when its directory exists and `p` is not a directory.
     */
    method WriteFile(p: Path, c: Content) returns (r: Outcome<IoError>)
      requires Valid()
      modifies this`files, this`log
      ensures Valid()
      ensures r.Pass? <==> p != [] && Parent(p) in dirs && p !in dirs
      ensures r.Pass? ==> files == old(files)[p := c] && log == old(log) + [Wrote(p)]
      ensures r.Fail? ==> files == old(files) && log == old(log)
      ensures r.Fail? && p != [] && Parent(p) in dirs ==> r.error == IsADirectory(p)
    {
      if p == [] || p in dirs {
        r := Fail(IsADirectory(p));
      } else if Parent(p) !in dirs {
        r := Fail(if Parent(p) in files then NotADirectory(p) else FileNotFound(p));
      } else {
        files := files[p := c];
        log := log + [Wrote(p)];
        r := Pass;
      }
    }

    /**
     * `open(p, "a").write(text)`: the text goes after what the text file
     * holds, or into a new file; the same errors as writing.
     */
    method AppendText(p: Path, text: string) returns (r: Outcome<IoError>)
      requires Valid()
      modifies this`files, this`log
      ensures Valid()
      ensures r.Pass? <==> p != [] && Parent(p) in dirs && p !in dirs
      ensures r.Pass? ==> files == old(files)[p := TextFile(TextIn(old(files), p) + text)] && log == old(log) + [Wrote(p)]
      ensures r.Fail? ==> files == old(files) && log == old(log)
    {
      r := WriteFile(p, TextFile(TextIn(files, p) + text));
    }

    /**
     * `p.unlink(missing_ok=True)`: removes a file; a missing path is no
     * error; a directory is, and so is a path under a file, which raises
     * `NotADirectoryError` rather than the `FileNotFoundError` that
     * `missing_ok` swallows.
     */
    method Unlink(p: Path) returns (r: Outcome<IoError>)
      requires Valid()
      modifies this`files, this`log
      ensures Valid()
      ensures r.Pass? <==> p != [] && p !in dirs && !Blocked(files, Parent(p))
      ensures r.Pass? ==> files == old(files) - {p}
      ensures r.Pass? && p in old(files) ==> log == old(log) + [Removed(p)]
      ensures r.Pass? && p !in old(files) ==> log == old(log)
      ensures r.Fail? ==> files == old(files) && log == old(log) && p !in files
      ensures r.Fail? ==> r.error == if p in dirs then IsADirectory(p) else NotADirectory(p)
    {
      if p in files {
        DirPrefixes(Parent(p));
      }
      if p in dirs {
        r := Fail(IsADirectory(p));
      } else if Blocked(files, Parent(p)) {
        r := Fail(NotADirectory(p));
      } else {
        if p in files {
          log := log + [Removed(p)];
        }
        files := files - {p};
        r := Pass;
      }
    }

    /** `p.read_bytes()` / `p.read_text()`. */
    function Read(p: Path): (r: Result<Content, IoError>)
      reads this
      ensures r.Success? <==> p in files
      ensures r.Success? ==> r.value == files[p]
    {
      if p in files then Success(files[p])
      else if p in dirs then Failure(IsADirectory(p))
      else Failure(FileNotFound(p))
    }

    /** `json.loads(p.read_text())`. */
    function ReadJson(p: Path): (r: Result<Value, IoError>)
      reads this
      ensures r.Success? <==> p in files && files[p].JsonFile?
      ensures r.Success? ==> files[p] == JsonFile(r.value)
    {
      JsonIn(dirs, files, p)
    }

    /** `p.exists()`. */
    predicate Exists(p: Path)
      reads this
    {
      p in dirs || p in files
    }

    /** The names of the directories directly inside `p`: `iterdir()` filtered by `is_dir()`. */
    function SubDirs(p: Path): (r: set<string>)
      reads this
      ensures forall n :: n in r <==> Child(p, n) in dirs
    {
      var r := set d | d in dirs && |d| == |p| + 1 && d[..|p|] == p :: d[|p|];
      assert forall n :: n in r ==> Child(p, n) in dirs by {
        forall n | n in r ensures Child(p, n) in dirs {
          var d :| d in dirs && |d| == |p| + 1 && d[..|p|] == p && d[|p|] == n;
          assert d == Child(p, n);
        }
      }
      assert forall n :: Child(p, n) in dirs ==> n in r by {
        forall n | Child(p, n) in dirs ensures n in r {
          var d := Child(p, n);
          assert |d| == |p| + 1 && d[..|p|] == p && d[|p|] == n;
        }
      }
      r
    }
  }
}
