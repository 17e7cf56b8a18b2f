/**
 * `scripts/download_drawing_spinup_assets.py`: reads the entries of the
 * DrawingSpinUp asset manifest and, one asset after the other, keeps a file
 * whose SHA-256 already matches, downloads anything else, deletes a download
 * whose hash is wrong and stops, and unpacks `.tar.gz` archives. The manifest
 * arrives already parsed; the network and the hash are parameters.
 */
module Assets {
  import opened Wrappers
  import opened Text
  import opened Values
  import opened Paths
  import opened FileSystem

  // ----- manifest entries -----

  /** `Asset`: the four fields of a manifest entry, the destination resolved. */
  datatype Asset = Asset(name: Value, url: Value, sha256: Value, destination: Path)

  /**
   * Why an entry is refused: a missing key (the `ValueError` of `from_dict`),
   * an entry that is no mapping, or a destination that is no string (both a
   * `TypeError` the script does not catch).
   */
  datatype EntryError = MissingKey(key: string) | NotAMapping | NotAPath

  /** The keys `from_dict` reads, in the order it reads them. */
  const RequiredKeys: seq<string> := ["name", "url", "sha256", "destination"]

  /** `base / s` for a string: an absolute `s` replaces `base`. */
  function JoinPath(base: Path, s: string): Path {
    if StartsWith(s, "/") then [""] + Components(s) else base + Components(s)
  }

  /** `Asset.from_dict(data, base_dir)`. */
  function FromDict(data: Value, base: Path): Result<Asset, EntryError> {
    if !data.VDict? then Failure(NotAMapping)
    else
      var d := data.entries;
      if Get(d, "name").None? then Failure(MissingKey("name"))
      else if Get(d, "url").None? then Failure(MissingKey("url"))
      else if Get(d, "sha256").None? then Failure(MissingKey("sha256"))
      else if Get(d, "destination").None? then Failure(MissingKey("destination"))
      else if !Get(d, "destination").value.VStr? then Failure(NotAPath)
      else Success(Asset(Get(d, "name").value, Get(d, "url").value, Get(d, "sha256").value,
                         JoinPath(base, Get(d, "destination").value.s)))
  }

  /** The first of `keys` that `d` lacks, if any. */
  function FirstMissing(d: Entries, keys: seq<string>): (r: Option<string>)
    ensures r.Some? ==> r.value in keys && r.value !in Keys(d)
    ensures r.None? <==> forall k :: k in keys ==> k in Keys(d)
  {
    if keys == [] then None
    else if keys[0] !in Keys(d) then Some(keys[0])
    else FirstMissing(d, keys[1..])
  }

  lemma FirstMissingCons(d: Entries, k: string, ks: seq<string>)
    ensures FirstMissing(d, [k] + ks) == if k !in Keys(d) then Some(k) else FirstMissing(d, ks)
  {
    assert ([k] + ks)[0] == k && ([k] + ks)[1..] == ks;
  }

  /**
   * An entry is accepted exactly when it is a mapping holding every required
   * key with a string destination; otherwise the error names the first
   * required key it lacks, and an accepted asset carries the entry's values.
   */
  lemma FromDictChecks(data: Value, base: Path)
    ensures FromDict(data, base).Success? <==>
      data.VDict? && FirstMissing(data.entries, RequiredKeys).None? && Get(data.entries, "destination").value.VStr?
    ensures data.VDict? && FirstMissing(data.entries, RequiredKeys).Some? ==>
      FromDict(data, base) == Failure(MissingKey(FirstMissing(data.entries, RequiredKeys).value))
    ensures FromDict(data, base).Success? ==>
      var a := FromDict(data, base).value;
      && ("name", a.name) in data.entries && ("url", a.url) in data.entries && ("sha256", a.sha256) in data.entries
      && a.destination == JoinPath(base, Get(data.entries, "destination").value.s)
  {
    if data.VDict? {
      var d := data.entries;
      FirstMissingCons(d, "name", ["url", "sha256", "destination"]);
      FirstMissingCons(d, "url", ["sha256", "destination"]);
      FirstMissingCons(d, "sha256", ["destination"]);
      FirstMissingCons(d, "destination", []);
    }
  }

  /**
   * `base_dir / destination` with a relative destination begins, component
   * by component, with `base_dir`, and what follows are the destination's
   * own non-empty components other than `.`. The join is lexical: a `..`
   * is kept as a component, and where it leads is not resolved.
   */
  lemma RelativeUnderBase(base: Path, s: string)
    requires !StartsWith(s, "/")
    ensures |JoinPath(base, s)| >= |base| && JoinPath(base, s)[..|base|] == base
    ensures JoinPath(base, s)[|base|..] == Components(s)
    ensures forall i :: |base| <= i < |JoinPath(base, s)| ==> JoinPath(base, s)[i] != "" && JoinPath(base, s)[i] != "."
  {
    assert JoinPath(base, s)[|base|..] == Components(s);
  }

  // ----- extract_if_needed -----

  /** `path.suffixes[-2:] == [".tar", ".gz"]`. */
  predicate NeedsExtract(p: Path) {
    var s := Suffixes(Name(p));
    |s| >= 2 && s[|s| - 2..] == [".tar", ".gz"]
  }

  /** `path.with_suffix("")`: the path with the last suffix of its name taken off. */
  function ExtractDir(p: Path): Path
    requires p != []
  {
    Parent(p) + [WithoutSuffix(Name(p))]
  }

  lemma DotUnique(a: string, b: string)
    requires "." + a == "." + b
    ensures a == b
  {
    assert a == ("." + a)[1..];
  }

  /** The string facts the `.tar.gz` lemmas need, in one place. */
  lemma TarGzLiterals()
    ensures ".tar" == "." + "tar" && ".gz" == "." + "gz" && ".tar.gz" == ".tar" + ".gz"
    ensures ".tar.gz" == "." + ("tar" + "." + "gz")
  {
  }

  /** A name with suffixes has one per dot-separated piece after the first. */
  lemma SuffixesPieces(name: string)
    requires Suffixes(name) != []
    ensures Suffixes(name) == DotEach(Split(LStripDots(name), '.')[1..])
  {
  }

  /** Pieces whose dotted tail ends in `.u`, `.v` end in `u` and `v`. */
  lemma DotTailLastTwo(xs: seq<string>, u: string, v: string)
    requires |xs| >= 1
    requires var s := DotEach(xs[1..]); |s| >= 2 && s[|s| - 2] == "." + u && s[|s| - 1] == "." + v
    ensures |xs| >= 3 && xs[|xs| - 2] == u && xs[|xs| - 1] == v
  {
    var t := xs[1..];
    DotUnique(t[|t| - 2], u);
    DotUnique(t[|t| - 1], v);
  }

  /** Suffixes ending in `.u`, `.v` come from a split whose last pieces are `u` and `v`. */
  lemma LastTwoPieces(name: string, u: string, v: string)
    requires var s := Suffixes(name); |s| >= 2 && s[|s| - 2] == "." + u && s[|s| - 1] == "." + v
    ensures var xs := Split(LStripDots(name), '.'); |xs| >= 3 && xs[|xs| - 2] == u && xs[|xs| - 1] == v
  {
    SuffixesPieces(name);
    DotTailLastTwo(Split(LStripDots(name), '.'), u, v);
  }

  lemma JoinThree(a: string, b: string, c: string, sep: string)
    ensures Join([a, b, c], sep) == a + (sep + (b + sep + c))
  {
    JoinCons(a, [b, c], sep);
    JoinCons(b, [c], sep);
    assert [a] + [b, c] == [a, b, c] && [b] + [c] == [b, c];
  }

  /** Pieces joined with a separator end with their last two pieces and the separators before them. */
  lemma JoinEndsWithLastTwo(xs: seq<string>, sep: string)
    requires |xs| >= 3
    ensures EndsWith(Join(xs, sep), sep + (xs[|xs| - 2] + sep + xs[|xs| - 1]))
  {
    var n := |xs|;
    var h, a, b, c := xs[..n - 3], xs[n - 3], xs[n - 2], xs[n - 1];
    assert xs == h + [a, b, c];
    JoinAfterLines(h, [a, b, c], sep);
    JoinThree(a, b, c, sep);
    EndsWithAfter(Terminated(h, sep), a, sep + (b + sep + c));
  }

  lemma EndsWithAfter(t: string, a: string, z: string)
    ensures EndsWith(t + (a + z), z)
  {
    assert (t + (a + z))[|t| + |a|..] == z;
  }

  /** Ending with the end of a string, a string ends with what that one ends with. */
  lemma EndsWithTransitive(s: string, l: string, z: string)
    requires EndsWith(s, l) && EndsWith(l, z)
    ensures EndsWith(s, z)
  {
    assert s[|s| - |z|..] == l[|l| - |z|..];
  }

  /** A string ending in `a + b` ends in `b`, and without that `b` it ends in `a`. */
  lemma EndsWithDrop(s: string, a: string, b: string)
    requires EndsWith(s, a + b)
    ensures EndsWith(s, b)
    ensures |b| <= |s| && EndsWith(s[..|s| - |b|], a)
  {
    assert s[|s| - |b|..] == (a + b)[|a|..];
    assert s[..|s| - |b|][|s| - |b| - |a|..] == (a + b)[..|a|];
  }

  /** A name ending in a dot followed by a dot-free `w`, with something before, has `.w` as its suffix. */
  lemma LastDotSuffix(name: string, w: string)
    requires w != [] && '.' !in w && |name| >= |w| + 2 && EndsWith(name, "." + w)
    ensures WithoutSuffix(name) == name[..|name| - |w| - 1]
  {
    var k := |name| - |w| - 1;
    assert name[k..] == "." + w;
    assert name[k] == '.';
    forall j | k < j < |name| ensures name[j] != '.' {
      assert name[j] == w[j - k - 1];
    }
    var i := RFind(name, '.');
    assert i == k;
    assert Suffix(name) == name[k..];
  }

  /**
   * A name whose last two suffixes are `.tar` and `.gz` ends in `.tar.gz`,
   * and taking its suffix off removes only the `.gz`.
   */
  lemma TarGzName(name: string)
    requires var s := Suffixes(name); |s| >= 2 && s[|s| - 2..] == [".tar", ".gz"]
    ensures |name| >= 7 && EndsWith(name, ".tar.gz")
    ensures WithoutSuffix(name) == name[..|name| - 3]
    ensures EndsWith(WithoutSuffix(name), ".tar")
  {
    TarGzLiterals();
    var s := Suffixes(name);
    assert s[|s| - 2] == ".tar" && s[|s| - 1] == ".gz";
    LastTwoPieces(name, "tar", "gz");
    var l := LStripDots(name);
    JoinEndsWithLastTwo(Split(l, '.'), ".");
    EndsWithTransitive(name, l, ".tar.gz");
    EndsWithDrop(name, ".tar", ".gz");
    LastDotSuffix(name, "gz");
  }

  /** `x.tar.gz` is unpacked into `x.tar`, next to the archive. */
  lemma ExtractBesideArchive(p: Path)
    requires p != [] && NeedsExtract(p)
    ensures EndsWith(Name(p), ".tar.gz")
    ensures ExtractDir(p) == Parent(p) + [Name(p)[..|Name(p)| - 3]]
    ensures EndsWith(Name(ExtractDir(p)), ".tar")
  {
    TarGzName(Name(p));
    var w := WithoutSuffix(Name(p));
    assert ExtractDir(p) == Parent(p) + [w];
    assert Name(Parent(p) + [w]) == w;
  }

  // ----- one asset's turn in main -----

  /** `requests.get(url)` as the script sees it: a status and the body, or an exception. */
  datatype Response = Response(status: int, body: seq<byte>)

  /**
   * The network, the hash and the archive reader: `requests.get`,
   * `sha256sum` of a file's contents, and whether `tarfile.open(..., "r:gz")`
   * followed by `extractall` gets through the downloaded bytes.
   */
  datatype Externals = Externals(get: Value -> Result<Response, string>, sha256: Content -> string,
                                 unpacks: Content -> bool)

  /** An exception `main` does not catch. */
  datatype ScriptError =
    | BadEntry(entryError: EntryError)
    | ManifestNotAMapping
    | AssetsNotIterable
    | RequestFailed(reason: string)
    | Os(ioError: IoError)
    | BadArchive(archive: Path)

  /** How `main` ends: it returns, calls `sys.exit(1)`, or raises. */
  datatype Exit = Returned | ExitOne | Raised(error: ScriptError)

  /** What the script prints; the status and hash failures go to standard error. */
  datatype Line =
    | NoManifest
    | Skipped(name: Value)
    | HashWarning(name: Value)
    | Downloading(name: Value, url: Value)
    | StatusFailure(url: Value, status: int)
    | HashFailure(name: Value, expected: Value, actual: string)
    | NothingToDownload

  /** An asset kept, downloaded (with the directory it is unpacked into, if any), or the script's end. */
  datatype Verdict = Kept | Fetched(extractInto: Option<Path>) | Stopped(exit: Exit)

  /** The tree after one asset's turn, what it printed, and how it ended. */
  datatype Step = Step(dirs: set<Path>, files: map<Path, Content>, lines: seq<Line>, verdict: Verdict)

  /** `actual_hash == asset.sha256`. */
  predicate HashMatches(expected: Value, actual: string) {
    VStr(actual) == expected
  }

  /** The check after a download: an empty expected hash accepts anything. */
  predicate Verified(expected: Value, actual: string) {
    !Truthy(expected) || HashMatches(expected, actual)
  }

  /**
   * One asset's turn: a destination that is a directory cannot be hashed; a
   * file with the expected hash is kept; anything else is downloaded.
   */
  function AssetStep(dirs: set<Path>, files: map<Path, Content>, a: Asset, x: Externals): Step {
    var dest := a.destination;
    if dest == [] || dest in dirs then Step(dirs, files, [], Stopped(Raised(Os(IsADirectory(dest)))))
    else if dest in files && HashMatches(a.sha256, x.sha256(files[dest])) then Step(dirs, files, [Skipped(a.name)], Kept)
    else
      var announced := (if dest in files then [HashWarning(a.name)] else []) + [Downloading(a.name, a.url)];
      FetchStep(dirs, files, a, x, announced)
  }

  /**
   * `download(url, destination)` and what follows it: a status other than
   * 200 exits with 1 before anything is written; the parent directories are
   * made and the body written; a download whose non-empty expected hash does
   * not match is deleted and exits with 1; a `.tar.gz` that cannot be
   * unpacked raises, leaving the download in place.
   */
  function FetchStep(dirs: set<Path>, files: map<Path, Content>, a: Asset, x: Externals, announced: seq<Line>): Step
    requires a.destination != []
  {
    var dest := a.destination;
    var parent := Parent(dest);
    var response := x.get(a.url);
    if response.Failure? then Step(dirs, files, announced, Stopped(Raised(RequestFailed(response.error))))
    else if response.value.status != 200 then
      Step(dirs, files, announced + [StatusFailure(a.url, response.value.status)], Stopped(ExitOne))
    else if Blocked(files, parent) then
      Step(dirs, files, announced, Stopped(Raised(Os(if parent in files then FileExists(parent) else NotADirectory(parent)))))
    else
      var saved := BytesFile(response.value.body);
      var actual := x.sha256(saved);
      if !Verified(a.sha256, actual) then
        Step(dirs + Prefixes(parent), files - {dest}, announced + [HashFailure(a.name, a.sha256, actual)], Stopped(ExitOne))
      else if NeedsExtract(dest) && !x.unpacks(saved) then
        Step(dirs + Prefixes(parent), files[dest := saved], announced, Stopped(Raised(BadArchive(dest))))
      else
        Step(dirs + Prefixes(parent), files[dest := saved], announced,
             Fetched(if NeedsExtract(dest) then Some(ExtractDir(dest)) else None))
  }

  /** An asset is kept, untouched and without a download, exactly when its file already has the expected hash. */
  lemma KeptIffHashMatches(dirs: set<Path>, files: map<Path, Content>, a: Asset, x: Externals)
    ensures AssetStep(dirs, files, a, x).verdict == Kept <==>
      a.destination != [] && a.destination !in dirs && a.destination in files &&
      HashMatches(a.sha256, x.sha256(files[a.destination]))
    ensures AssetStep(dirs, files, a, x).verdict == Kept ==>
      AssetStep(dirs, files, a, x).dirs == dirs && AssetStep(dirs, files, a, x).files == files &&
      AssetStep(dirs, files, a, x).lines == [Skipped(a.name)]
  {
  }

  /** A file with another hash is announced with a warning and downloaded again. */
  lemma MismatchRefetches(dirs: set<Path>, files: map<Path, Content>, a: Asset, x: Externals)
    requires a.destination != [] && a.destination !in dirs && a.destination in files
    requires !HashMatches(a.sha256, x.sha256(files[a.destination]))
    ensures |AssetStep(dirs, files, a, x).lines| >= 2
    ensures AssetStep(dirs, files, a, x).lines[..2] == [HashWarning(a.name), Downloading(a.name, a.url)]
    ensures AssetStep(dirs, files, a, x).verdict != Kept
  {
  }

  /**
   * Once the download is attempted, the script exits with 1 exactly when the
   * status is not 200 or the non-empty expected hash does not match; a bad
   * status leaves the tree as it was, a bad hash leaves no file behind.
   */
  lemma ExitOneCauses(dirs: set<Path>, files: map<Path, Content>, a: Asset, x: Externals, announced: seq<Line>)
    requires a.destination != [] && x.get(a.url).Success? && !Blocked(files, Parent(a.destination))
    ensures FetchStep(dirs, files, a, x, announced).verdict == Stopped(ExitOne) <==>
      x.get(a.url).value.status != 200 ||
      !Verified(a.sha256, x.sha256(BytesFile(x.get(a.url).value.body)))
    ensures x.get(a.url).value.status != 200 ==>
      FetchStep(dirs, files, a, x, announced).dirs == dirs && FetchStep(dirs, files, a, x, announced).files == files
    ensures x.get(a.url).value.status == 200 && FetchStep(dirs, files, a, x, announced).verdict == Stopped(ExitOne) ==>
      a.destination !in FetchStep(dirs, files, a, x, announced).files
  {
  }

  /**
   * Without an expected hash, a download with status 200 is always stored as
   * received, and accepted unless it is a `.tar.gz` that does not unpack.
   */
  lemma EmptyHashAccepts(dirs: set<Path>, files: map<Path, Content>, a: Asset, x: Externals, announced: seq<Line>)
    requires a.destination != [] && !Truthy(a.sha256)
    requires x.get(a.url).Success? && x.get(a.url).value.status == 200 && !Blocked(files, Parent(a.destination))
    ensures FetchStep(dirs, files, a, x, announced).verdict.Fetched? <==>
      !NeedsExtract(a.destination) || x.unpacks(BytesFile(x.get(a.url).value.body))
    ensures !FetchStep(dirs, files, a, x, announced).verdict.Fetched? ==>
      FetchStep(dirs, files, a, x, announced).verdict == Stopped(Raised(BadArchive(a.destination)))
    ensures FetchStep(dirs, files, a, x, announced).files == files[a.destination := BytesFile(x.get(a.url).value.body)]
  {
  }

  /**
   * One asset's turn of the loop in `main`: hash an existing destination,
   * keep it or download, verify, delete on a mismatch.
   */
  method ProcessAsset(fs: FileSystem, a: Asset, x: Externals) returns (lines: seq<Line>, verdict: Verdict)
    requires fs.Valid()
    modifies fs
    ensures fs.Valid()
    ensures Step(fs.dirs, fs.files, lines, verdict) == AssetStep(old(fs.dirs), old(fs.files), a, x)
  {
    var dest := a.destination;
    if dest == [] || dest in fs.dirs {
      return [], Stopped(Raised(Os(IsADirectory(dest))));
    }
    lines := [];
    if dest in fs.files {
      var actual := x.sha256(fs.files[dest]);
      if HashMatches(a.sha256, actual) {
        return [Skipped(a.name)], Kept;
      }
      lines := [HashWarning(a.name)];
    }
    lines := lines + [Downloading(a.name, a.url)];
    lines, verdict := Fetch(fs, a, x, lines);
  }

  /**
   * `download(url, destination)`, then the hash check and
   * `extract_if_needed`, after the lines already `announced`; a bad status or
   * a bad hash adds its error line.
   */
  method Fetch(fs: FileSystem, a: Asset, x: Externals, announced: seq<Line>) returns (lines: seq<Line>, verdict: Verdict)
    requires fs.Valid() && a.destination != [] && a.destination !in fs.dirs
    modifies fs
    ensures fs.Valid()
    ensures Step(fs.dirs, fs.files, lines, verdict) == FetchStep(old(fs.dirs), old(fs.files), a, x, announced)
  {
    var dest := a.destination;
    lines := announced;
    var response := x.get(a.url);
    if response.Failure? {
      return lines, Stopped(Raised(RequestFailed(response.error)));
    }
    if response.value.status != 200 {
      return lines + [StatusFailure(a.url, response.value.status)], Stopped(ExitOne);
    }
    var parent := Parent(dest);
    var made := fs.MkDirs(parent);
    if made.Fail? {
      return lines, Stopped(Raised(Os(made.error)));
    }
    assert dest !in Prefixes(parent);
    assert parent[..|parent|] == parent;
    var saved := BytesFile(response.value.body);
    var written := fs.WriteFile(dest, saved);
    assert written.Pass?;
    var actual := x.sha256(saved);
    if !Verified(a.sha256, actual) {
      var removed := fs.Unlink(dest);
      assert removed.Pass?;
      return lines + [HashFailure(a.name, a.sha256, actual)], Stopped(ExitOne);
    }
    if NeedsExtract(dest) && !x.unpacks(saved) {
      return lines, Stopped(Raised(BadArchive(dest)));
    }
    verdict := Fetched(if NeedsExtract(dest) then Some(ExtractDir(dest)) else None);
  }

  // ----- main -----

  /** A whole run: the tree after it, what it printed, what it unpacked and where, and how it ended. */
  datatype Run = Run(dirs: set<Path>, files: map<Path, Content>, lines: seq<Line>, extracted: seq<Path>, exit: Exit)

  /** What came before `r`: its lines and unpacked directories go first. */
  function After(lines: seq<Line>, extracted: seq<Path>, r: Run): Run {
    r.(lines := lines + r.lines, extracted := extracted + r.extracted)
  }

  function OptionList(o: Option<Path>): seq<Path> {
    if o.Some? then [o.value] else []
  }

  /**
   * The loop of `main` over the remaining entries, each read by `from_dict`
   * only when its turn comes, then the closing message when nothing was
   * downloaded.
   */
  function RunAssets(dirs: set<Path>, files: map<Path, Content>, entries: seq<Value>, base: Path, x: Externals,
                     downloadedAny: bool): Run
    decreases |entries|, 0
  {
    if entries == [] then Run(dirs, files, if downloadedAny then [] else [NothingToDownload], [], Returned)
    else
      var parsed := FromDict(entries[0], base);
      if parsed.Failure? then Run(dirs, files, [], [], Raised(BadEntry(parsed.error)))
      else Continue(AssetStep(dirs, files, parsed.value, x), entries[1..], base, x, downloadedAny)
  }

  /** The run after an asset's turn `s`: it ends there, or goes on with the remaining entries. */
  function Continue(s: Step, rest: seq<Value>, base: Path, x: Externals, downloadedAny: bool): Run
    decreases |rest|, 1
  {
    match s.verdict
    case Stopped(exit) => Run(s.dirs, s.files, s.lines, [], exit)
    case Kept => After(s.lines, [], RunAssets(s.dirs, s.files, rest, base, x, downloadedAny))
    case Fetched(into) => After(s.lines, OptionList(into), RunAssets(s.dirs, s.files, rest, base, x, true))
  }

  /** The run from entry `i` on: parse it, take its turn, continue. */
  lemma RunAssetsAt(dirs: set<Path>, files: map<Path, Content>, entries: seq<Value>, i: nat, base: Path, x: Externals,
                    downloadedAny: bool)
    requires i < |entries|
    ensures FromDict(entries[i], base).Failure? ==>
      RunAssets(dirs, files, entries[i..], base, x, downloadedAny) ==
        Run(dirs, files, [], [], Raised(BadEntry(FromDict(entries[i], base).error)))
    ensures FromDict(entries[i], base).Success? ==>
      RunAssets(dirs, files, entries[i..], base, x, downloadedAny) ==
        Continue(AssetStep(dirs, files, FromDict(entries[i], base).value, x), entries[i + 1..], base, x, downloadedAny)
  {
    assert entries[i..][0] == entries[i] && entries[i..][1..] == entries[i + 1..];
  }

  /** `for entry in assets`: a list yields its items, a dict its keys and a string its characters. */
  function Iterate(v: Value): Result<seq<Value>, ScriptError> {
    match v
    case VList(xs) => Success(xs)
    case VTuple(xs) => Success(xs)
    case VDict(es) => Success(seq(|es|, i requires 0 <= i < |es| => VStr(es[i].0)))
    case VStr(s) => Success(seq(|s|, i requires 0 <= i < |s| => VStr([s[i]])))
    case _ => Failure(AssetsNotIterable)
  }

  /** `(yaml.safe_load(...) or {}).get("assets", [])`, iterated. */
  function AssetsOf(manifest: Value): Result<seq<Value>, ScriptError> {
    var m := if Truthy(manifest) then manifest else VDict([]);
    if !m.VDict? then Failure(ManifestNotAMapping)
    else Iterate(if Get(m.entries, "assets").Some? then Get(m.entries, "assets").value else VList([]))
  }

  /** `main()`, for the parsed manifest or `None` when the manifest file is missing. */
  function Script(dirs: set<Path>, files: map<Path, Content>, manifest: Option<Value>, base: Path, x: Externals): Run {
    if manifest.None? then Run(dirs, files, [NoManifest], [], Returned)
    else
      var entries := AssetsOf(manifest.value);
      if entries.Failure? then Run(dirs, files, [], [], Raised(entries.error))
      else RunAssets(dirs, files, entries.value, base, x, false)
  }

  /** The entry parses and its asset is kept. */
  predicate KeptEntry(dirs: set<Path>, files: map<Path, Content>, e: Value, base: Path, x: Externals) {
    FromDict(e, base).Success? && AssetStep(dirs, files, FromDict(e, base).value, x).verdict == Kept
  }

  /** Every entry parses and its asset is kept. */
  predicate AllKept(dirs: set<Path>, files: map<Path, Content>, entries: seq<Value>, base: Path, x: Externals) {
    forall i :: 0 <= i < |entries| ==> KeptEntry(dirs, files, entries[i], base, x)
  }

  lemma NoClosingLineInStep(dirs: set<Path>, files: map<Path, Content>, a: Asset, x: Externals)
    ensures NothingToDownload !in AssetStep(dirs, files, a, x).lines
  {
  }

  /** An asset's turn that ends the script never ends it by returning. */
  lemma StopsAreExits(dirs: set<Path>, files: map<Path, Content>, a: Asset, x: Externals)
    ensures AssetStep(dirs, files, a, x).verdict.Stopped? ==> AssetStep(dirs, files, a, x).verdict.exit != Returned
  {
  }

  /** A run that returns went past its first entry: it parsed, and its asset was kept or downloaded. */
  lemma ReturnedGoesOn(dirs: set<Path>, files: map<Path, Content>, entries: seq<Value>, base: Path, x: Externals,
                       downloadedAny: bool)
    requires entries != []
    ensures RunAssets(dirs, files, entries, base, x, downloadedAny).exit == Returned ==>
      FromDict(entries[0], base).Success? && !AssetStep(dirs, files, FromDict(entries[0], base).value, x).verdict.Stopped?
  {
    if FromDict(entries[0], base).Success? {
      var s := AssetStep(dirs, files, FromDict(entries[0], base).value, x);
      StopsAreExits(dirs, files, FromDict(entries[0], base).value, x);
      assert RunAssets(dirs, files, entries, base, x, downloadedAny) == Continue(s, entries[1..], base, x, downloadedAny);
      assert s.verdict.Stopped? ==> Continue(s, entries[1..], base, x, downloadedAny).exit == s.verdict.exit;
    }
  }

  /** All entries are kept when the first is and all the others are. */
  lemma AllKeptCons(dirs: set<Path>, files: map<Path, Content>, entries: seq<Value>, base: Path, x: Externals)
    requires entries != []
    ensures AllKept(dirs, files, entries, base, x) <==>
      KeptEntry(dirs, files, entries[0], base, x) && AllKept(dirs, files, entries[1..], base, x)
  {
    if AllKept(dirs, files, entries, base, x) {
      forall i | 0 <= i < |entries[1..]| ensures KeptEntry(dirs, files, entries[1..][i], base, x) {
        assert entries[1..][i] == entries[i + 1];
      }
    }
    if AllKept(dirs, files, entries[1..], base, x) {
      forall i | 1 <= i < |entries| ensures KeptEntry(dirs, files, entries[i], base, x) {
        assert entries[i] == entries[1..][i - 1];
      }
    }
  }

  /**
   * A run that returns prints the closing message exactly when none of the
   * assets was downloaded, every one of them kept as it was, and then the
   * tree is unchanged.
   */
  lemma {:induction false} ClosingLineIffAllKept(dirs: set<Path>, files: map<Path, Content>, entries: seq<Value>,
                                                 base: Path, x: Externals)
    requires RunAssets(dirs, files, entries, base, x, false).exit == Returned
    ensures NothingToDownload in RunAssets(dirs, files, entries, base, x, false).lines <==> AllKept(dirs, files, entries, base, x)
    ensures AllKept(dirs, files, entries, base, x) ==>
      RunAssets(dirs, files, entries, base, x, false).dirs == dirs &&
      RunAssets(dirs, files, entries, base, x, false).files == files
    decreases |entries|
  {
    if entries != [] {
      ReturnedGoesOn(dirs, files, entries, base, x, false);
      var a := FromDict(entries[0], base).value;
      var s := AssetStep(dirs, files, a, x);
      NoClosingLineInStep(dirs, files, a, x);
      AllKeptCons(dirs, files, entries, base, x);
      if s.verdict == Kept {
        KeptIffHashMatches(dirs, files, a, x);
        var r := RunAssets(dirs, files, entries[1..], base, x, false);
        assert RunAssets(dirs, files, entries, base, x, false) == After(s.lines, [], r);
        ClosingLineIffAllKept(dirs, files, entries[1..], base, x);
      } else {
        var r := RunAssets(s.dirs, s.files, entries[1..], base, x, true);
        assert RunAssets(dirs, files, entries, base, x, false) == After(s.lines, OptionList(s.verdict.extractInto), r);
        ClosingLineNeverAfterFetch(s.dirs, s.files, entries[1..], base, x);
      }
    }
  }

  /** After a download the closing message is never printed. */
  lemma {:induction false} ClosingLineNeverAfterFetch(dirs: set<Path>, files: map<Path, Content>, entries: seq<Value>,
                                                      base: Path, x: Externals)
    ensures NothingToDownload !in RunAssets(dirs, files, entries, base, x, true).lines
    decreases |entries|
  {
    if entries != [] && FromDict(entries[0], base).Success? {
      var s := AssetStep(dirs, files, FromDict(entries[0], base).value, x);
      NoClosingLineInStep(dirs, files, FromDict(entries[0], base).value, x);
      ClosingLineNeverAfterFetch(s.dirs, s.files, entries[1..], base, x);
    }
  }

  /** An asset that ends the script makes every later entry irrelevant. */
  lemma StopIgnoresRest(dirs: set<Path>, files: map<Path, Content>, e: Value, rest: seq<Value>, rest': seq<Value>,
                        base: Path, x: Externals, any: bool)
    requires FromDict(e, base).Success? && AssetStep(dirs, files, FromDict(e, base).value, x).verdict.Stopped?
    ensures RunAssets(dirs, files, [e] + rest, base, x, any) == RunAssets(dirs, files, [e] + rest', base, x, any)
  {
    var s := AssetStep(dirs, files, FromDict(e, base).value, x);
    assert ([e] + rest)[0] == e && ([e] + rest)[1..] == rest;
    assert ([e] + rest')[0] == e && ([e] + rest')[1..] == rest';
    assert RunAssets(dirs, files, [e] + rest, base, x, any) == Continue(s, rest, base, x, any);
    assert RunAssets(dirs, files, [e] + rest', base, x, any) == Continue(s, rest', base, x, any);
  }

  lemma AfterAfter(lines: seq<Line>, extracted: seq<Path>, lines': seq<Line>, extracted': seq<Path>, r: Run)
    ensures After(lines, extracted, After(lines', extracted', r)) == After(lines + lines', extracted + extracted', r)
  {
    assert lines + (lines' + r.lines) == (lines + lines') + r.lines;
    assert extracted + (extracted' + r.extracted) == (extracted + extracted') + r.extracted;
  }

  /**
   * One turn of the loop in `main`: read entry `i`, process its asset, and
   * either end the run or hand the rest of it to the next turn.
   */
  method TakeTurn(fs: FileSystem, entries: seq<Value>, i: nat, base: Path, x: Externals, downloadedAny: bool)
    returns (stopped: Option<Exit>, lines: seq<Line>, extracted: seq<Path>, anyAfter: bool)
    requires fs.Valid() && i < |entries|
    modifies fs
    ensures fs.Valid()
    ensures stopped.Some? ==>
      Run(fs.dirs, fs.files, lines, extracted, stopped.value) ==
        old(RunAssets(fs.dirs, fs.files, entries[i..], base, x, downloadedAny))
    ensures stopped.None? ==>
      After(lines, extracted, RunAssets(fs.dirs, fs.files, entries[i + 1..], base, x, anyAfter)) ==
        old(RunAssets(fs.dirs, fs.files, entries[i..], base, x, downloadedAny))
  {
    RunAssetsAt(fs.dirs, fs.files, entries, i, base, x, downloadedAny);
    var parsed := FromDict(entries[i], base);
    if parsed.Failure? {
      return Some(Raised(BadEntry(parsed.error))), [], [], downloadedAny;
    }
    ghost var rest := Continue(AssetStep(fs.dirs, fs.files, parsed.value, x), entries[i + 1..], base, x, downloadedAny);
    var more, verdict := ProcessAsset(fs, parsed.value, x);
    assert rest == Continue(Step(fs.dirs, fs.files, more, verdict), entries[i + 1..], base, x, downloadedAny);
    match verdict {
      case Stopped(e) =>
        stopped, lines, extracted, anyAfter := Some(e), more, [], downloadedAny;
      case Kept =>
        stopped, lines, extracted, anyAfter := None, more, [], downloadedAny;
      case Fetched(into) =>
        stopped, lines, extracted, anyAfter := None, more, OptionList(into), true;
    }
  }

  /**
   * `main()`: the manifest check, then one turn per entry until one ends the
   * script, then the closing message when nothing was downloaded.
   */
  method DownloadAssets(fs: FileSystem, manifest: Option<Value>, base: Path, x: Externals)
    returns (exit: Exit, lines: seq<Line>, extracted: seq<Path>)
    requires fs.Valid()
    modifies fs
    ensures fs.Valid()
    ensures Run(fs.dirs, fs.files, lines, extracted, exit) == Script(old(fs.dirs), old(fs.files), manifest, base, x)
  {
    if manifest.None? {
      return Returned, [NoManifest], [];
    }
    var listed := AssetsOf(manifest.value);
    if listed.Failure? {
      return Raised(listed.error), [], [];
    }
    var entries := listed.value;
    ghost var target := RunAssets(fs.dirs, fs.files, entries, base, x, false);
    var downloadedAny := false;
    lines, extracted := [], [];
    var i := 0;
    while i < |entries|
      invariant 0 <= i <= |entries| && fs.Valid()
      invariant After(lines, extracted, RunAssets(fs.dirs, fs.files, entries[i..], base, x, downloadedAny)) == target
    {
      var stopped, more, ex, anyAfter := TakeTurn(fs, entries, i, base, x, downloadedAny);
      if stopped.Some? {
        AfterAfter(lines, extracted, more, ex, Run(fs.dirs, fs.files, [], [], stopped.value));
        return stopped.value, lines + more, extracted + ex;
      }
      AfterAfter(lines, extracted, more, ex, RunAssets(fs.dirs, fs.files, entries[i + 1..], base, x, anyAfter));
      lines, extracted, downloadedAny := lines + more, extracted + ex, anyAfter;
      i := i + 1;
    }
    assert entries[i..] == [];
    exit := Returned;
    lines := lines + if downloadedAny then [] else [NothingToDownload];
  }
}
