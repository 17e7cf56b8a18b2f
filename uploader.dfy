/**
 * The stand-alone uploader at the repository root (`main.py`): `POST
 * /characters` keeps an uploaded image under the SHA-256 of its bytes,
 * prepares the PNG input of the LaMa inpainting runner, runs it, and answers
 * `{"status": "ok"}` whatever the conversion or the runner did; their
 * failures only go to the directory's `logs.txt`.
 */
module Uploader {
  import opened Wrappers
  import opened Text
  import opened Paths
  import opened Values
  import opened FileSystem

  /**
   * What the handler calls and the model does not look into: `imghdr.what`,
   * `hashlib.sha256(...).hexdigest()`, PIL's open, convert to RGBA and save
   * as PNG (the PNG bytes, or the exception's text), `run_lama_for_uid`
   * (nothing, or the exception's text) and `str(e)` of an `OSError`.
   */
  datatype Externals = Externals(
    what: seq<byte> -> Option<string>,
    sha256: seq<byte> -> string,
    toPng: Content -> Result<seq<byte>, string>,
    lama: string -> Option<string>,
    errorText: IoError -> string)

  // ----- _detect_ext -----

  /** `IMGHDR_TO_EXT`: the extension for each kind `imghdr.what` reports. */
  const ImghdrToExt: map<string, string> := map[
    "jpeg" := "jpg", "png" := "png", "gif" := "gif", "bmp" := "bmp", "tiff" := "tif",
    "rgb" := "rgb", "pbm" := "pbm", "pgm" := "pgm", "ppm" := "ppm", "xbm" := "xbm"]

  /** `IMGHDR_TO_EXT.get(kind, kind)`. */
  function ExtFor(kind: string): string {
    if kind in ImghdrToExt then ImghdrToExt[kind] else kind
  }

  /** The table renames only `jpeg` and `tiff`; every other kind, listed or not, is its own extension. */
  lemma ExtForRenames(kind: string)
    ensures ExtFor(kind) == if kind == "jpeg" then "jpg" else if kind == "tiff" then "tif" else kind
  {
  }

  /** A string that Python takes as true: present and not empty. */
  predicate Present(s: Option<string>) {
    s.Some? && s.value != ""
  }

  /** The fallback chain of `_detect_ext` once each suffix test has an answer. */
  function FallbackChain(png: bool, jpg: bool, webp: bool, gif: bool): string {
    if png then "png" else if jpg then "jpg" else if webp then "webp" else if gif then "gif" else "png"
  }

  /** `_detect_ext(data, content_type)`, where `imghdr.what(None, data)` gave `kind`. */
  function DetectExt(kind: Option<string>, contentType: Option<string>): string {
    if Present(kind) then ExtFor(kind.value)
    else if Present(contentType) then
      var ct := contentType.value;
      FallbackChain(EndsWith(ct, "/png"), EndsWith(ct, "/jpeg") || EndsWith(ct, "/jpg"),
        EndsWith(ct, "/webp"), EndsWith(ct, "/gif"))
    else "png"
  }

  /** A kind found in the data decides the extension, whatever the content type says. */
  lemma KindWins(kind: Option<string>, contentType: Option<string>, other: Option<string>)
    requires Present(kind)
    ensures DetectExt(kind, contentType) == ExtFor(kind.value) == DetectExt(kind, other)
  {
  }

  /** A string ending with two suffixes has the shorter at the end of the longer. */
  lemma EndsWithBoth(s: string, a: string, b: string)
    requires |a| <= |b|
    ensures EndsWith(s, a) && EndsWith(s, b) ==> EndsWith(b, a)
  {
    if EndsWith(s, a) && EndsWith(s, b) {
      assert b[|b| - |a|..] == s[|s| - |a|..];
    }
  }

  /**
   * No content type ends with two of the fallback suffixes, so the order in
   * which they are tried does not matter.
   */
  lemma FallbackSuffixesExclusive(ct: string)
    ensures !(EndsWith(ct, "/png") && (EndsWith(ct, "/jpeg") || EndsWith(ct, "/jpg") || EndsWith(ct, "/webp") || EndsWith(ct, "/gif")))
    ensures !((EndsWith(ct, "/jpeg") || EndsWith(ct, "/jpg")) && (EndsWith(ct, "/webp") || EndsWith(ct, "/gif")))
    ensures !(EndsWith(ct, "/webp") && EndsWith(ct, "/gif"))
  {
    EndsWithBoth(ct, "/png", "/jpeg");
    EndsWithBoth(ct, "/png", "/webp");
    EndsWithBoth(ct, "/jpg", "/webp");
    EndsWithBoth(ct, "/gif", "/jpeg");
  }

  /** When at most one test holds, each answer of the chain names the test that held. */
  lemma FallbackChainExclusive(png: bool, jpg: bool, webp: bool, gif: bool)
    requires !(png && (jpg || webp || gif)) && !(jpg && (webp || gif)) && !(webp && gif)
    ensures FallbackChain(png, jpg, webp, gif) == "jpg" <==> jpg
    ensures FallbackChain(png, jpg, webp, gif) == "webp" <==> webp
    ensures FallbackChain(png, jpg, webp, gif) == "gif" <==> gif
    ensures FallbackChain(png, jpg, webp, gif) == "png" <==> !(jpg || webp || gif)
  {
    assert "png"[0] == 'p' && "jpg"[0] == 'j' && "webp"[0] == 'w' && "gif"[0] == 'g';
  }

  /**
   * Without a kind, each extension answers exactly the content types ending
   * in its suffix, and `png` also every other content type or none.
   */
  lemma FallbackByContentType(kind: Option<string>, ct: string)
    requires !Present(kind)
    ensures DetectExt(kind, Some(ct)) == "jpg" <==> EndsWith(ct, "/jpeg") || EndsWith(ct, "/jpg")
    ensures DetectExt(kind, Some(ct)) == "webp" <==> EndsWith(ct, "/webp")
    ensures DetectExt(kind, Some(ct)) == "gif" <==> EndsWith(ct, "/gif")
    ensures DetectExt(kind, Some(ct)) == "png" <==>
      !(EndsWith(ct, "/jpeg") || EndsWith(ct, "/jpg") || EndsWith(ct, "/webp") || EndsWith(ct, "/gif"))
    ensures DetectExt(kind, None) == "png"
  {
    FallbackSuffixesExclusive(ct);
    FallbackChainExclusive(EndsWith(ct, "/png"), EndsWith(ct, "/jpeg") || EndsWith(ct, "/jpg"),
      EndsWith(ct, "/webp"), EndsWith(ct, "/gif"));
  }

  // ----- upload_character_image -----

  /** Why an upload is refused: 415, 400, or an `OSError` (a 500). */
  datatype UploadError = UnsupportedMediaType | EmptyFile | Io(error: IoError)

  function StatusCode(e: UploadError): int {
    match e
    case UnsupportedMediaType => 415
    case EmptyFile => 400
    case Io(_) => 500
  }

  /** `content_type` is present and starts with `image/`. */
  predicate IsImageType(contentType: Option<string>) {
    contentType.Some? && StartsWith(contentType.value, "image/")
  }

  /** `STORE_DIR / h`. */
  function HashDir(store: Path, h: string): Path { Child(store, h) }
  /** `dest_dir / f"input.{ext}"`. */
  function OriginalPath(dir: Path, ext: string): Path { Child(dir, "input." + ext) }
  function CharDir(dir: Path): Path { Child(dir, "char") }
  /** `dest_dir / "char" / "input.png"`: the LaMa input, whatever the upload's format. */
  function LamaInput(dir: Path): Path { Child(CharDir(dir), "input.png") }
  function LogsPath(dir: Path): Path { Child(dir, "logs.txt") }

  /** The four paths the handler writes or makes inside `dir` are different, and none is inside another. */
  lemma LayoutSeparates(dir: Path, ext: string)
    ensures OriginalPath(dir, ext) != CharDir(dir) && OriginalPath(dir, ext) != LogsPath(dir) && CharDir(dir) != LogsPath(dir)
    ensures LamaInput(dir) != OriginalPath(dir, ext) && LamaInput(dir) != LogsPath(dir)
    ensures OriginalPath(dir, ext) !in Prefixes(CharDir(dir)) && LogsPath(dir) !in Prefixes(CharDir(dir))
    ensures LamaInput(dir) !in Prefixes(CharDir(dir))
  {
    assert ("input." + ext)[0] == 'i';
  }

  /** The conversion's failure: PIL's message, or the `OSError` met. */
  datatype ConvertError = Unreadable(message: string) | Os(error: IoError)

  /** `str(e)` of a conversion failure. */
  function Describe(e: ConvertError, x: Externals): string {
    match e
    case Unreadable(m) => m
    case Os(err) => x.errorText(err)
  }

  /**
   * What `_ensure_png_for_lama(src, dst)` meets on the directories `dirs`
   * and the files `files`: the parent of `dst` blocked by a file, a missing
   * `src`, an image PIL cannot read, a directory at `dst`, or success.
   */
  function ConvertOutcome(dirs: set<Path>, files: map<Path, Content>, src: Path, dst: Path,
                          toPng: Content -> Result<seq<byte>, string>): (r: Outcome<ConvertError>)
    requires dst != []
  {
    var parent := Parent(dst);
    if Blocked(files, parent) then Fail(Os(if parent in files then FileExists(parent) else NotADirectory(parent)))
    else if src !in files then Fail(Os(if src in dirs + Prefixes(parent) then IsADirectory(src) else FileNotFound(src)))
    else if toPng(files[src]).Failure? then Fail(Unreadable(toPng(files[src]).error))
    else if dst in dirs then Fail(Os(IsADirectory(dst)))
    else Pass
  }

  /** The conversion succeeds exactly when nothing is in its way and PIL reads the image. */
  lemma ConvertOutcomePass(dirs: set<Path>, files: map<Path, Content>, src: Path, dst: Path,
                           toPng: Content -> Result<seq<byte>, string>)
    requires dst != []
    ensures ConvertOutcome(dirs, files, src, dst, toPng).Pass? <==>
      !Blocked(files, Parent(dst)) && src in files && toPng(files[src]).Success? && dst !in dirs
  {
  }

  /**
   * `_ensure_png_for_lama(src, dst)`: makes the directory of `dst`, reads
   * `src` with PIL and saves it there as PNG.
   */
  method EnsurePngForLama(fs: FileSystem, src: Path, dst: Path, toPng: Content -> Result<seq<byte>, string>)
    returns (r: Outcome<ConvertError>)
    requires fs.Valid() && dst != []
    modifies fs
    ensures fs.Valid()
    ensures r == ConvertOutcome(old(fs.dirs), old(fs.files), src, dst, toPng)
    ensures fs.dirs == if Blocked(old(fs.files), Parent(dst)) then old(fs.dirs) else old(fs.dirs) + Prefixes(Parent(dst))
    ensures r.Pass? ==>
      fs.files == old(fs.files)[dst := BytesFile(toPng(old(fs.files)[src]).value)] && fs.log == old(fs.log) + [Wrote(dst)]
    ensures r.Fail? ==> fs.files == old(fs.files) && fs.log == old(fs.log)
  {
    var parent := Parent(dst);
    var made := fs.MkDirs(parent);
    if made.Fail? {
      return Fail(Os(made.error));
    }
    assert dst !in Prefixes(parent);
    var image := fs.Read(src);
    if image.Failure? {
      return Fail(Os(image.error));
    }
    var png := toPng(image.value);
    if png.Failure? {
      return Fail(Unreadable(png.error));
    }
    assert parent[..|parent|] == parent;
    var saved := fs.WriteFile(dst, BytesFile(png.value));
    if saved.Fail? {
      return Fail(Os(saved.error));
    }
    r := Pass;
  }

  /** The extension the handler picks for `data` sent as `contentType`. */
  function UploadExt(contentType: Option<string>, data: seq<byte>, x: Externals): string {
    DetectExt(x.what(data), contentType)
  }

  /** `f"[PNG-CONVERT] {e}\n"`. */
  function ConvertLogLine(e: ConvertError, x: Externals): string {
    "[PNG-CONVERT] " + Describe(e, x) + "\n"
  }

  /** `f"[LaMa] {e}\n"`. */
  function LamaLogLine(message: string): string {
    "[LaMa] " + message + "\n"
  }

  /** With the original of `data` saved in `dir`, its conversion for LaMa succeeds. */
  predicate Converts(dirs: set<Path>, files: map<Path, Content>, dir: Path, data: seq<byte>, x: Externals) {
    CharDir(dir) !in files && x.toPng(BytesFile(data)).Success? && LamaInput(dir) !in dirs
  }

  /**
   * Everything the handler needs to answer `{"status": "ok"}`: an image
   * type, some data, room for the hash directory and the original, and a
   * writable `logs.txt` whenever the conversion or the runner fails.
   */
  predicate Storable(dirs: set<Path>, files: map<Path, Content>, store: Path, contentType: Option<string>,
                     data: seq<byte>, x: Externals)
  {
    var dir := HashDir(store, x.sha256(data));
    && IsImageType(contentType) && data != []
    && !Blocked(files, dir) && OriginalPath(dir, UploadExt(contentType, data, x)) !in dirs
    && (LogsPath(dir) !in dirs || (Converts(dirs, files, dir, data, x) && x.lama(x.sha256(data)).None?))
  }

  /**
   * After the original `OriginalPath(dir, ext)` is saved: the conversion
   * succeeds exactly when `ConvertOutcome` passes, and the runner step then
   * succeeds unless `logs.txt` is needed and is a directory.
   */
  predicate Prepares(dirs: set<Path>, files: map<Path, Content>, dir: Path, ext: string, h: string, x: Externals) {
    || LogsPath(dir) !in dirs
    || (ConvertOutcome(dirs, files, OriginalPath(dir, ext), LamaInput(dir), x.toPng).Pass? && x.lama(h).None?)
  }

  /**
   * The files after the steps that follow saving the original: its PNG as
   * the LaMa input or the conversion's log line (replacing any earlier log),
   * then the runner's log line after whatever the log holds.
   */
  function PreparedFiles(dirs: set<Path>, files: map<Path, Content>, dir: Path, ext: string, h: string, x: Externals)
    : map<Path, Content>
  {
    var orig := OriginalPath(dir, ext);
    var converted := ConvertOutcome(dirs, files, orig, LamaInput(dir), x.toPng);
    var prepared :=
      if converted.Pass? then files[LamaInput(dir) := BytesFile(x.toPng(files[orig]).value)]
      else files[LogsPath(dir) := TextFile(ConvertLogLine(converted.error, x))];
    if x.lama(h).Some? then prepared[LogsPath(dir) := TextFile(TextIn(prepared, LogsPath(dir)) + LamaLogLine(x.lama(h).value))]
    else prepared
  }

  /**
   * The files after the conversion step alone: the PNG at the LaMa input
   * when it succeeds, nothing changed otherwise. A failed log write leaves
   * the upload's files like this.
   */
  function ConvertedFiles(dirs: set<Path>, files: map<Path, Content>, dir: Path, ext: string, x: Externals)
    : map<Path, Content>
  {
    var orig := OriginalPath(dir, ext);
    if ConvertOutcome(dirs, files, orig, LamaInput(dir), x.toPng).Pass? then
      files[LamaInput(dir) := BytesFile(x.toPng(files[orig]).value)]
    else files
  }

  /** The files after a whole upload: the original saved, then `PreparedFiles`. */
  function StoredFiles(dirs: set<Path>, files: map<Path, Content>, store: Path, contentType: Option<string>,
                       data: seq<byte>, x: Externals): map<Path, Content>
  {
    var h := x.sha256(data);
    var dir := HashDir(store, h);
    var ext := UploadExt(contentType, data, x);
    PreparedFiles(dirs + Prefixes(dir), files[OriginalPath(dir, ext) := BytesFile(data)], dir, ext, h, x)
  }

  /** The directories a successful upload makes: the hash directory, and `char` unless a file has that name. */
  function StoredDirs(files: map<Path, Content>, store: Path, data: seq<byte>, x: Externals): set<Path> {
    var dir := HashDir(store, x.sha256(data));
    if CharDir(dir) in files then Prefixes(dir) else Prefixes(CharDir(dir))
  }

  /**
   * The files an upload that fails with a filesystem error leaves: nothing
   * changed when the original could not be saved; otherwise the original,
   * and the LaMa input when the conversion succeeded before the log write
   * failed.
   */
  function FailedFiles(dirs: set<Path>, files: map<Path, Content>, store: Path, contentType: Option<string>,
                       data: seq<byte>, x: Externals): map<Path, Content>
  {
    var dir := HashDir(store, x.sha256(data));
    var ext := UploadExt(contentType, data, x);
    if Blocked(files, dir) || OriginalPath(dir, ext) in dirs then files
    else ConvertedFiles(dirs + Prefixes(dir), files[OriginalPath(dir, ext) := BytesFile(data)], dir, ext, x)
  }

  /** The directories such an upload makes: none, the hash directory, or those of a complete upload. */
  function FailedDirs(dirs: set<Path>, files: map<Path, Content>, store: Path, contentType: Option<string>,
                      data: seq<byte>, x: Externals): set<Path>
  {
    var dir := HashDir(store, x.sha256(data));
    if Blocked(files, dir) then {}
    else if OriginalPath(dir, UploadExt(contentType, data, x)) in dirs then Prefixes(dir)
    else StoredDirs(files, store, data, x)
  }

  /** Making `char` after its parent leaves the parent's prefixes in place. */
  lemma CharDirsJoin(dirs: set<Path>, dir: Path, hasChar: bool)
    ensures dirs + Prefixes(dir) + (if hasChar then {} else Prefixes(CharDir(dir)))
         == dirs + if hasChar then Prefixes(dir) else Prefixes(CharDir(dir))
  {
    PrefixesGrow(dir, ["char"]);
    assert CharDir(dir) == dir + ["char"];
  }

  /** Why the conversion of a freshly saved original fails, when `Converts` does not hold. */
  function ConvertFailure(dirs: set<Path>, files: map<Path, Content>, dir: Path, data: seq<byte>, x: Externals)
    : ConvertError
  {
    if CharDir(dir) in files then Os(FileExists(CharDir(dir)))
    else if x.toPng(BytesFile(data)).Failure? then Unreadable(x.toPng(BytesFile(data)).error)
    else Os(IsADirectory(LamaInput(dir)))
  }

  /** Converting the original just saved in `dir` succeeds exactly when `Converts` says so. */
  lemma ConvertAfterSave(dirs: set<Path>, files: map<Path, Content>, dir: Path, ext: string, data: seq<byte>, x: Externals)
    requires !Blocked(files, dir)
    ensures ConvertOutcome(dirs + Prefixes(dir), files[OriginalPath(dir, ext) := BytesFile(data)], OriginalPath(dir, ext),
                           LamaInput(dir), x.toPng).Pass?
      <==> Converts(dirs, files, dir, data, x)
    ensures !Converts(dirs, files, dir, data, x) ==>
      ConvertOutcome(dirs + Prefixes(dir), files[OriginalPath(dir, ext) := BytesFile(data)], OriginalPath(dir, ext),
                     LamaInput(dir), x.toPng) == Fail(ConvertFailure(dirs, files, dir, data, x))
    ensures Blocked(files[OriginalPath(dir, ext) := BytesFile(data)], CharDir(dir)) <==> CharDir(dir) in files
  {
    var saved := files[OriginalPath(dir, ext) := BytesFile(data)];
    LayoutSeparates(dir, ext);
    assert Parent(LamaInput(dir)) == CharDir(dir);
    forall k | 0 <= k <= |CharDir(dir)|
      ensures CharDir(dir)[..k] in saved <==> k == |CharDir(dir)| && CharDir(dir) in files
    {
      if k <= |dir| {
        assert CharDir(dir)[..k] == dir[..k];
      } else {
        assert CharDir(dir)[..k] == CharDir(dir);
      }
    }
    if CharDir(dir) in files {
      assert CharDir(dir)[..|CharDir(dir)|] == CharDir(dir);
    }
    assert Blocked(saved, CharDir(dir)) <==> CharDir(dir) in files;
    assert saved[OriginalPath(dir, ext)] == BytesFile(data);
    assert LamaInput(dir) !in Prefixes(dir);
    ConvertOutcomePass(dirs + Prefixes(dir), saved, OriginalPath(dir, ext), LamaInput(dir), x.toPng);
  }

  /** Makes `dir` and writes `data` to `OriginalPath(dir, ext)` in it. */
  method SaveOriginal(fs: FileSystem, dir: Path, ext: string, data: seq<byte>) returns (r: Outcome<IoError>)
    requires fs.Valid()
    modifies fs
    ensures fs.Valid()
    ensures r.Pass? <==> old(!Blocked(fs.files, dir) && OriginalPath(dir, ext) !in fs.dirs)
    ensures r.Pass? ==> fs.dirs == old(fs.dirs) + Prefixes(dir)
    ensures r.Pass? ==> fs.files == old(fs.files)[OriginalPath(dir, ext) := BytesFile(data)]
    ensures r.Fail? ==> fs.files == old(fs.files)
    ensures r.Fail? ==> fs.dirs == old(fs.dirs) + if Blocked(old(fs.files), dir) then {} else Prefixes(dir)
  {
    var made := fs.MkDirs(dir);
    if made.Fail? {
      return Fail(made.error);
    }
    assert dir[..|dir|] == dir && OriginalPath(dir, ext) !in Prefixes(dir);
    r := fs.WriteFile(OriginalPath(dir, ext), BytesFile(data));
  }

  /**
   * The steps of the handler after the original is saved in `dir`: convert
   * it for LaMa, write the conversion's error to `logs.txt` when it fails
   * (`write_text`), run LaMa and append its error when it fails.
   */
  method PrepareForLama(fs: FileSystem, dir: Path, ext: string, h: string, x: Externals) returns (r: Outcome<IoError>)
    requires fs.Valid() && dir in fs.dirs
    modifies fs
    ensures fs.Valid()
    ensures r.Pass? <==> old(Prepares(fs.dirs, fs.files, dir, ext, h, x))
    ensures r.Pass? ==> fs.files == PreparedFiles(old(fs.dirs), old(fs.files), dir, ext, h, x)
    ensures r.Fail? ==> fs.files == ConvertedFiles(old(fs.dirs), old(fs.files), dir, ext, x)
    ensures fs.dirs == old(fs.dirs) + if Blocked(old(fs.files), CharDir(dir)) then {} else Prefixes(CharDir(dir))
  {
    ghost var dirs0, files0 := fs.dirs, fs.files;
    LayoutSeparates(dir, ext);
    assert Parent(LamaInput(dir)) == CharDir(dir);
    var converted := EnsurePngForLama(fs, OriginalPath(dir, ext), LamaInput(dir), x.toPng);
    ghost var dirs1 := fs.dirs;
    assert dirs1 == dirs0 + if Blocked(files0, CharDir(dir)) then {} else Prefixes(CharDir(dir));
    assert LogsPath(dir) !in dirs1 <==> LogsPath(dir) !in dirs0;
    if converted.Fail? {
      var logged := fs.WriteFile(LogsPath(dir), TextFile(ConvertLogLine(converted.error, x)));
      if logged.Fail? {
        return Fail(logged.error);
      }
    }
    var failure := x.lama(h);
    if failure.Some? {
      var appended := fs.AppendText(LogsPath(dir), LamaLogLine(failure.value));
      if appended.Fail? {
        return Fail(appended.error);
      }
    }
    r := Pass;
  }

  /**
   * `upload_character_image(file)`: 415 for a missing or non-image content
   * type, before reading; 400 for empty data; otherwise the original goes to
   * `STORE_DIR/<sha256>/input.<ext>`, its PNG to `char/input.png`, and a
   * failure of the conversion or of LaMa only adds a line to `logs.txt`.
   */
  method UploadCharacterImage(fs: FileSystem, store: Path, contentType: Option<string>, data: seq<byte>, x: Externals)
    returns (r: Result<Entries, UploadError>)
    requires fs.Valid()
    modifies fs
    ensures fs.Valid()
    ensures r == Failure(UnsupportedMediaType) <==> !IsImageType(contentType)
    ensures r == Failure(EmptyFile) <==> IsImageType(contentType) && data == []
    ensures !IsImageType(contentType) || data == [] ==>
      fs.dirs == old(fs.dirs) && fs.files == old(fs.files) && fs.log == old(fs.log)
    ensures r.Success? <==> old(Storable(fs.dirs, fs.files, store, contentType, data, x))
    ensures r.Success? ==> r.value == [("status", VStr("ok"))]
    ensures r.Success? ==> fs.files == StoredFiles(old(fs.dirs), old(fs.files), store, contentType, data, x)
    ensures r.Success? ==> fs.dirs == old(fs.dirs) + StoredDirs(old(fs.files), store, data, x)
    ensures r.Failure? && r.error.Io? ==> fs.files == FailedFiles(old(fs.dirs), old(fs.files), store, contentType, data, x)
    ensures r.Failure? && r.error.Io? ==> fs.dirs == old(fs.dirs) + FailedDirs(old(fs.dirs), old(fs.files), store, contentType, data, x)
  {
    if !IsImageType(contentType) {
      return Failure(UnsupportedMediaType);
    }
    if data == [] {
      return Failure(EmptyFile);
    }
    ghost var dirs0, files0 := fs.dirs, fs.files;
    var ext := DetectExt(x.what(data), contentType);
    var h := x.sha256(data);
    var dir := HashDir(store, h);
    var saved := SaveOriginal(fs, dir, ext, data);
    if saved.Fail? {
      return Failure(Io(saved.error));
    }
    ghost var files1 := fs.files;
    assert fs.dirs == dirs0 + Prefixes(dir);
    ConvertAfterSave(dirs0, files0, dir, ext, data, x);
    assert dir[..|dir|] == dir && LogsPath(dir) !in Prefixes(dir);
    var prepared := PrepareForLama(fs, dir, ext, h, x);
    CharDirsJoin(dirs0, dir, CharDir(dir) in files0);
    assert fs.dirs == dirs0 + Prefixes(dir) + (if Blocked(files1, CharDir(dir)) then {} else Prefixes(CharDir(dir)));
    if prepared.Fail? {
      return Failure(Io(prepared.error));
    }
    r := Success([("status", VStr("ok"))]);
  }

  /** `dir`, `ext` and `h` are the hash directory, the extension and the hash the handler computes. */
  predicate Names(store: Path, contentType: Option<string>, data: seq<byte>, x: Externals, h: string, dir: Path, ext: string) {
    h == x.sha256(data) && dir == HashDir(store, h) && ext == UploadExt(contentType, data, x)
  }

  /** The steps after the save touch no path but the LaMa input and the log. */
  lemma PreparedElsewhere(dirs: set<Path>, files: map<Path, Content>, dir: Path, ext: string, h: string, x: Externals,
                          p: Path)
    requires p != LamaInput(dir) && p != LogsPath(dir)
    ensures p in PreparedFiles(dirs, files, dir, ext, h, x) <==> p in files
    ensures p in files ==> PreparedFiles(dirs, files, dir, ext, h, x)[p] == files[p]
  {
  }

  /** After an upload the original is stored, byte for byte, as `input.<ext>`. */
  lemma StoredOriginal(dirs: set<Path>, files: map<Path, Content>, store: Path, contentType: Option<string>,
                       data: seq<byte>, x: Externals, h: string, dir: Path, ext: string)
    requires Names(store, contentType, data, x, h, dir, ext)
    ensures OriginalPath(dir, ext) in StoredFiles(dirs, files, store, contentType, data, x)
    ensures StoredFiles(dirs, files, store, contentType, data, x)[OriginalPath(dir, ext)] == BytesFile(data)
  {
    LayoutSeparates(dir, ext);
    assert |OriginalPath(dir, ext)| != |LamaInput(dir)|;
    PreparedElsewhere(dirs + Prefixes(dir), files[OriginalPath(dir, ext) := BytesFile(data)], dir, ext, h, x,
                      OriginalPath(dir, ext));
  }

  /**
   * `char/input.png` holds the PNG of the upload exactly when the conversion
   * succeeds; otherwise it is what it was.
   */
  lemma StoredLamaInput(dirs: set<Path>, files: map<Path, Content>, store: Path, contentType: Option<string>,
                        data: seq<byte>, x: Externals, h: string, dir: Path, ext: string)
    requires Names(store, contentType, data, x, h, dir, ext) && !Blocked(files, dir)
    ensures Converts(dirs, files, dir, data, x) ==>
      LamaInput(dir) in StoredFiles(dirs, files, store, contentType, data, x) &&
      StoredFiles(dirs, files, store, contentType, data, x)[LamaInput(dir)] == BytesFile(x.toPng(BytesFile(data)).value)
    ensures !Converts(dirs, files, dir, data, x) ==>
      (LamaInput(dir) in StoredFiles(dirs, files, store, contentType, data, x) <==> LamaInput(dir) in files) &&
      (LamaInput(dir) in files ==> StoredFiles(dirs, files, store, contentType, data, x)[LamaInput(dir)] == files[LamaInput(dir)])
  {
    ConvertAfterSave(dirs, files, dir, ext, data, x);
    LayoutSeparates(dir, ext);
    assert |LamaInput(dir)| != |LogsPath(dir)| && |LamaInput(dir)| != |OriginalPath(dir, ext)|;
  }

  /**
   * `logs.txt` after an upload: untouched when the conversion and LaMa
   * succeed; the conversion's line alone when it fails (`write_text`
   * replaces the file); the LaMa line after whatever it held otherwise.
   */
  lemma StoredLog(dirs: set<Path>, files: map<Path, Content>, store: Path, contentType: Option<string>,
                  data: seq<byte>, x: Externals, h: string, dir: Path, ext: string)
    requires Names(store, contentType, data, x, h, dir, ext) && !Blocked(files, dir)
    ensures Converts(dirs, files, dir, data, x) && x.lama(h).None? ==>
      (LogsPath(dir) in StoredFiles(dirs, files, store, contentType, data, x) <==> LogsPath(dir) in files) &&
      (LogsPath(dir) in files ==> StoredFiles(dirs, files, store, contentType, data, x)[LogsPath(dir)] == files[LogsPath(dir)])
    ensures !Converts(dirs, files, dir, data, x) && x.lama(h).None? ==>
      LogsPath(dir) in StoredFiles(dirs, files, store, contentType, data, x) &&
      StoredFiles(dirs, files, store, contentType, data, x)[LogsPath(dir)] ==
        TextFile(ConvertLogLine(ConvertFailure(dirs, files, dir, data, x), x))
    ensures Converts(dirs, files, dir, data, x) && x.lama(h).Some? ==>
      LogsPath(dir) in StoredFiles(dirs, files, store, contentType, data, x) &&
      StoredFiles(dirs, files, store, contentType, data, x)[LogsPath(dir)] ==
        TextFile(TextIn(files, LogsPath(dir)) + LamaLogLine(x.lama(h).value))
    ensures !Converts(dirs, files, dir, data, x) && x.lama(h).Some? ==>
      LogsPath(dir) in StoredFiles(dirs, files, store, contentType, data, x) &&
      StoredFiles(dirs, files, store, contentType, data, x)[LogsPath(dir)] ==
        TextFile(ConvertLogLine(ConvertFailure(dirs, files, dir, data, x), x) + LamaLogLine(x.lama(h).value))
  {
    ConvertAfterSave(dirs, files, dir, ext, data, x);
    LayoutSeparates(dir, ext);
    assert |LamaInput(dir)| != |LogsPath(dir)|;
  }

  /** An upload writes no file but the original, the LaMa input and the log. */
  lemma StoredNothingElse(dirs: set<Path>, files: map<Path, Content>, store: Path, contentType: Option<string>,
                          data: seq<byte>, x: Externals, h: string, dir: Path, ext: string, p: Path)
    requires Names(store, contentType, data, x, h, dir, ext)
    requires p != OriginalPath(dir, ext) && p != LamaInput(dir) && p != LogsPath(dir)
    ensures p in StoredFiles(dirs, files, store, contentType, data, x) <==> p in files
    ensures p in files ==> StoredFiles(dirs, files, store, contentType, data, x)[p] == files[p]
  {
    PreparedElsewhere(dirs + Prefixes(dir), files[OriginalPath(dir, ext) := BytesFile(data)], dir, ext, h, x, p);
  }

  /**
   * An upload that fails after saving its original differs from a complete
   * one only in `logs.txt`: the failure is the log write, so the original
   * and the LaMa input are what a complete upload leaves.
   */
  lemma FailedDiffersOnlyInLog(dirs: set<Path>, files: map<Path, Content>, store: Path, contentType: Option<string>,
                               data: seq<byte>, x: Externals, h: string, dir: Path, ext: string, p: Path)
    requires Names(store, contentType, data, x, h, dir, ext)
    requires !Blocked(files, dir) && OriginalPath(dir, ext) !in dirs && p != LogsPath(dir)
    ensures p in FailedFiles(dirs, files, store, contentType, data, x) <==> p in StoredFiles(dirs, files, store, contentType, data, x)
    ensures p in StoredFiles(dirs, files, store, contentType, data, x) ==>
      FailedFiles(dirs, files, store, contentType, data, x)[p] == StoredFiles(dirs, files, store, contentType, data, x)[p]
  {
    LayoutSeparates(dir, ext);
    assert |LamaInput(dir)| != |LogsPath(dir)|;
  }

  /**
   * While `logs.txt` is free, the handler answers `{"status": "ok"}` for
   * every image it can store, whether or not the conversion or LaMa fail.
   */
  lemma OkDespiteFailures(dirs: set<Path>, files: map<Path, Content>, store: Path, contentType: Option<string>,
                          data: seq<byte>, x: Externals, h: string, dir: Path, ext: string)
    requires Names(store, contentType, data, x, h, dir, ext) && LogsPath(dir) !in dirs
    ensures Storable(dirs, files, store, contentType, data, x) <==>
      IsImageType(contentType) && data != [] && !Blocked(files, dir) && OriginalPath(dir, ext) !in dirs
  {
  }
}
