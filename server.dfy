/**
 * server/app/main.py: the request handlers of the rigging service. The
 * clock readings, the `uuid4().hex` values and the PIL conversions arrive
 * as arguments; FastAPI's routing and the response models' validation are
 * not modelled beyond the record shapes they fix.
 */
module Server {
  import opened Wrappers
  import opened Text
  import opened Values
  import opened Paths
  import opened FileSystem
  import opened Storage
  import opened Pipeline
  import opened GpuPool

  /** Why a request did not produce its record; the HTTP status where there is one. */
  datatype ApiError =
    | Unlisted(listing: IoError)      // `list_characters()` raised
    | NotFound                        // 404: no such character
    | Busy                            // `acquire()` would wait for a free GPU
    | EmptyUpload                     // 400: the uploaded file is empty
    | FsError(error: IoError)         // a filesystem call of the handler raised
    | Failed(cause: RunError)         // `pipeline.run` raised
    | InvalidProfile(cid: string)     // a stored profile does not fit `CharacterResponse`

  /** `CharacterResponse`. */
  datatype CharacterResponse = CharacterResponse(
    characterId: string,
    name: Option<string>,
    description: Option<string>,
    updatedAt: Option<string>,
    latestJob: Option<string>,
    metadata: Entries)

  // ----- create_character -----

  /** `payload.name.lower().replace(" ", "-")`: the id of a new character. */
  function Slug(name: string): (cid: string)
    ensures |cid| == |name|
    ensures forall i :: 0 <= i < |name| ==> cid[i] == if name[i] == ' ' then '-' else LowerChar(name[i])
  {
    ReplaceChar(Lower(name), ' ', '-')
  }

  /**
   * An id holds no space and no upper-case ASCII letter, and slugging it
   * again changes nothing: a name and its slug, two different names, get
   * the same id, and the later profile replaces the earlier.
   */
  lemma SlugIsNormal(name: string)
    ensures ' ' !in Slug(name)
    ensures forall i :: 0 <= i < |Slug(name)| ==> !('A' <= Slug(name)[i] <= 'Z')
    ensures Slug(Slug(name)) == Slug(name)
  {
    var cid := Slug(name);
    forall i | 0 <= i < |cid| ensures cid[i] != ' ' && !('A' <= cid[i] <= 'Z') {
      if name[i] != ' ' {
        assert LowerChar(name[i]) != ' ';
      }
    }
  }

  /** An optional string as a Python value: the string, or `None`. */
  function TextOrNone(t: Option<string>): (v: Value)
    ensures FieldFits(Some(v)) && FieldText(Some(v)) == t
  {
    if t.Some? then VStr(t.value) else VNone
  }

  /** `payload.dict()` of `CharacterCreate(name, description)`, in field order. */
  function Payload(name: string, description: Option<string>): Entries {
    [("name", VStr(name)), ("description", TextOrNone(description))]
  }

  /** The payload has the two fields of `CharacterCreate`, each once, holding what was sent. */
  lemma PayloadFields(name: string, description: Option<string>)
    ensures var p := Payload(name, description);
      && UniqueKeys(p) && Keys(p) == ["name", "description"]
      && Get(p, "name") == Some(VStr(name))
      && Get(p, "description") == Some(TextOrNone(description))
  {
    var p := Payload(name, description);
    GetAt(p, 0);
    GetAt(p, 1);
  }

  /**
   * `create_character(payload)`: saves the profile of the slugged name,
   * creates the character's directory, and answers with the name, the
   * description, a fresh stamp, no job and no metadata. `savedAt` is the
   * stamp in the profile, `respondedAt` the later one in the response.
   */
  method CreateCharacter(fs: FileSystem, root: Path, name: string, description: Option<string>,
                         savedAt: string, respondedAt: string)
    returns (r: Result<CharacterResponse, ApiError>)
    requires fs.Valid()
    modifies fs
    ensures fs.Valid()
    ensures r.Success? <==>
      !old(fs.BlockedByFile(CharacterPath(root, Slug(name)))) && ProfilePath(root, Slug(name)) !in old(fs.dirs)
    ensures r.Success? ==> r.value == CharacterResponse(Slug(name), Some(name), description, Some(respondedAt), None, [])
    ensures r.Success? ==>
      fs.files == old(fs.files)[ProfilePath(root, Slug(name)) := JsonFile(VDict(ProfileRecord(Slug(name), Payload(name, description), savedAt)))]
    ensures r.Success? ==> fs.log == old(fs.log) + [Wrote(ProfilePath(root, Slug(name)))]
    ensures r.Success? ==> fs.dirs == old(fs.dirs) + Prefixes(CharacterPath(root, Slug(name)))
    ensures old(fs.dirs) <= fs.dirs <= old(fs.dirs) + Prefixes(CharacterPath(root, Slug(name)))
    ensures r.Failure? ==> fs.files == old(fs.files) && fs.log == old(fs.log)
  {
    var cid := Slug(name);
    var saved := SaveCharacterProfile(fs, root, cid, Payload(name, description), savedAt);
    if saved.Fail? {
      return Failure(FsError(saved.error));
    }
    assert CharacterPath(root, cid)[..|CharacterPath(root, cid)|] == CharacterPath(root, cid);
    var _ := CharacterDir(fs, root, cid);
    r := Success(CharacterResponse(cid, Some(name), description, Some(respondedAt), None, []));
  }

  // ----- get_characters -----

  /** The profile keys the listing reports in their own fields rather than in `metadata`. */
  predicate Hidden(k: string) {
    k == "name" || k == "description" || k == "updated_at" || k == "character_id"
  }

  /** `{k: str(v) for k, v in info.items() if k not in {...}}`. */
  function Projection(info: Entries): (m: Entries)
    ensures forall i :: 0 <= i < |m| ==> m[i].1.VStr? && !Hidden(m[i].0)
  {
    if info == [] then []
    else (if Hidden(info[0].0) then [] else [(info[0].0, VStr(Show(info[0].1)))]) + Projection(info[1..])
  }

  /**
   * The metadata holds every other key of the profile, with its value as
   * `str` prints it, and none of the four reported keys.
   */
  lemma {:induction false} ProjectGet(info: Entries, k: string)
    ensures Get(Projection(info), k) ==
      if Hidden(k) || Get(info, k).None? then None else Some(VStr(Show(Get(info, k).value)))
  {
    if info != [] {
      var rest := Projection(info[1..]);
      ProjectGet(info[1..], k);
      assert info == [info[0]] + info[1..];
      GetCons(info[0], info[1..], k);
      if Hidden(info[0].0) {
        assert Projection(info) == rest;
      } else {
        var e := (info[0].0, VStr(Show(info[0].1)));
        assert Projection(info) == [e] + rest;
        GetCons(e, rest, k);
      }
    }
  }

  /** A value pydantic's `str` field takes: a string, or an integer or boolean it converts. */
  predicate Coercible(v: Value) {
    v.VStr? || v.VInt? || v.VBool?
  }

  /**
   * A profile field the response's `Optional[str]` accepts: absent, null, or
   * a value pydantic converts to a string.
   */
  predicate FieldFits(v: Option<Value>) {
    v.None? || v.value.VNone? || Coercible(v.value)
  }

  /** The field's value in the response: `str(v)` of a convertible value, `None` otherwise. */
  function FieldText(v: Option<Value>): (t: Option<string>)
    ensures t.Some? <==> v.Some? && Coercible(v.value)
    ensures t.Some? ==> t.value == Show(v.value)
    ensures v.Some? && v.value.VStr? ==> t == Some(v.value.s)
    ensures v.Some? && v.value.VInt? ==> t == Some(IntToString(v.value.i))
    ensures v.Some? && v.value.VBool? ==> t == Some(if v.value.b then "True" else "False")
  {
    if v.Some? && Coercible(v.value) then Some(Show(v.value)) else None
  }

  /** The profile can be shown: a dict whose three reported fields fit. */
  predicate Showable(info: Value) {
    info.VDict? && FieldFits(Get(info.entries, "name")) && FieldFits(Get(info.entries, "description"))
    && FieldFits(Get(info.entries, "updated_at"))
  }

  /** The `CharacterResponse` built for the character `cid` with profile `info` and latest job `latest`. */
  function CharacterView(cid: string, info: Value, latest: Option<string>): (r: Result<CharacterResponse, ApiError>)
    ensures r.Success? <==> Showable(info)
    ensures r.Failure? ==> r.error == InvalidProfile(cid)
    ensures r.Success? ==> r.value.characterId == cid && r.value.latestJob == latest
  {
    if !Showable(info) then Failure(InvalidProfile(cid))
    else
      var e := info.entries;
      Success(CharacterResponse(cid, FieldText(Get(e, "name")), FieldText(Get(e, "description")),
        FieldText(Get(e, "updated_at")), latest, Projection(e)))
  }

  /**
   * A character just created lists as it was answered, with the profile's
   * own stamp, and with empty metadata: its profile holds only reported keys.
   */
  lemma CreatedCharacterLists(name: string, description: Option<string>, stamp: string, latest: Option<string>)
    ensures CharacterView(Slug(name), VDict(ProfileRecord(Slug(name), Payload(name, description), stamp)), latest)
      == Success(CharacterResponse(Slug(name), Some(name), description, Some(stamp), latest, []))
  {
    var p := ProfileRecord(Slug(name), Payload(name, description), stamp);
    CreatedProfile(Slug(name), name, description, stamp);
    ProjectionOfReported(p);
    ViewOfReported(Slug(name), p, name, description, stamp, latest);
  }

  /** The view of a profile holding the name, the description and the stamp, and nothing for `metadata`. */
  lemma ViewOfReported(cid: string, p: Entries, name: string, description: Option<string>, stamp: string,
                       latest: Option<string>)
    requires Get(p, "name") == Some(VStr(name))
    requires Get(p, "description") == Some(TextOrNone(description))
    requires Get(p, "updated_at") == Some(VStr(stamp))
    requires Projection(p) == []
    ensures CharacterView(cid, VDict(p), latest) == Success(CharacterResponse(cid, Some(name), description, Some(stamp), latest, []))
  {
  }

  /** The profile `create_character` saves holds the name, the description, the stamp, and only reported keys. */
  lemma CreatedProfile(cid: string, name: string, description: Option<string>, stamp: string)
    ensures var p := ProfileRecord(cid, Payload(name, description), stamp);
      && Get(p, "name") == Some(VStr(name))
      && Get(p, "description") == Some(TextOrNone(description))
      && Get(p, "updated_at") == Some(VStr(stamp))
      && forall i :: 0 <= i < |p| ==> Hidden(p[i].0)
  {
    PayloadFields(name, description);
    SavedPayload(cid, Payload(name, description), VStr(name), TextOrNone(description), stamp);
  }

  /** A profile saved from a name and a description keeps both, with the stamp and reported keys only. */
  lemma SavedPayload(cid: string, payload: Entries, name: Value, description: Value, stamp: string)
    requires UniqueKeys(payload) && Keys(payload) == ["name", "description"]
    requires Get(payload, "name") == Some(name) && Get(payload, "description") == Some(description)
    ensures var p := ProfileRecord(cid, payload, stamp);
      && Get(p, "name") == Some(name)
      && Get(p, "description") == Some(description)
      && Get(p, "updated_at") == Some(VStr(stamp))
      && forall i :: 0 <= i < |p| ==> Hidden(p[i].0)
  {
    var first: Entries := [("character_id", VStr(cid))];
    var last: Entries := [("updated_at", VStr(stamp))];
    assert Keys(last) == ["updated_at"];
    MergeGet(first, payload, "name");
    MergeGet(first, payload, "description");
    MergeGet(Merge(first, payload), last, "name");
    MergeGet(Merge(first, payload), last, "description");
    MergeGet(Merge(first, payload), last, "updated_at");
    PayloadKeysHidden();
    MergedHidden(cid, payload, stamp);
  }

  /** Both fields of `CharacterCreate` are reported keys. */
  lemma PayloadKeysHidden()
    ensures forall k :: k in ["name", "description"] ==> Hidden(k)
  {
  }

  /** A profile saved from a payload of reported keys holds only reported keys. */
  lemma MergedHidden(cid: string, payload: Entries, stamp: string)
    requires UniqueKeys(payload) && forall k :: k in Keys(payload) ==> Hidden(k)
    ensures var p := ProfileRecord(cid, payload, stamp);
      forall i :: 0 <= i < |p| ==> Hidden(p[i].0)
  {
    var p := ProfileRecord(cid, payload, stamp);
    ProfileMergeOrder(cid, payload, stamp);
    forall i | 0 <= i < |p| ensures Hidden(p[i].0) {
      var k := p[i].0;
      assert Keys(p)[i] == k;
      if k != "character_id" && k != "updated_at" {
        assert Get(p, k) == Get(payload, k);
      }
    }
  }

  /** A profile holding only the four reported keys has empty metadata. */
  lemma {:induction false} ProjectionOfReported(info: Entries)
    requires forall i :: 0 <= i < |info| ==> Hidden(info[i].0)
    ensures Projection(info) == []
  {
    if info != [] {
      assert forall i :: 0 <= i < |info[1..]| ==> info[1..][i] == info[i + 1];
      ProjectionOfReported(info[1..]);
    }
  }

  /** `latest` is what `latest_job(cid)` reports for the character's outputs. */
  ghost predicate IsLatest(fs: FileSystem, root: Path, cid: string, latest: Option<string>)
    reads fs
  {
    && (latest.None? <==> OutputsPath(root, cid) !in fs.dirs || fs.SubDirs(OutputsPath(root, cid)) == {})
    && (latest.Some? ==> IsGreatest(latest.value, fs.SubDirs(OutputsPath(root, cid))))
  }

  /** `view` is the listing's entry for the character directory `cid`. */
  ghost predicate Lists(fs: FileSystem, root: Path, cid: string, view: CharacterResponse)
    reads fs
  {
    && ProfileOf(fs, root, cid).Success?
    && OutputsPath(root, cid) !in fs.files
    && IsLatest(fs, root, cid, view.latestJob)
    && CharacterView(cid, ProfileOf(fs, root, cid).value, view.latestJob) == Success(view)
  }

  /** Every character directory can be listed: its profile reads, its outputs are no file, and it fits the response. */
  ghost predicate Listable(fs: FileSystem, root: Path)
    reads fs
  {
    && !fs.BlockedByFile(CharactersPath(root))
    && ProfilesReadable(fs, root)
    && forall n :: n in fs.SubDirs(CharactersPath(root)) ==>
         OutputsPath(root, n) !in fs.files && Showable(ProfileOf(fs, root, n).value)
  }

  /**
   * `get_characters()`: one response per character directory, built from its
   * profile and its latest job. It creates the `characters` directory when
   * missing and writes no file.
   */
  method GetCharacters(fs: FileSystem, root: Path) returns (r: Result<map<string, CharacterResponse>, ApiError>)
    requires fs.Valid()
    modifies fs`dirs
    ensures fs.Valid() && fs.files == old(fs.files)
    ensures !fs.BlockedByFile(CharactersPath(root)) ==> fs.dirs == old(fs.dirs) + Prefixes(CharactersPath(root))
    ensures fs.BlockedByFile(CharactersPath(root)) ==> r.Failure? && fs.dirs == old(fs.dirs)
    ensures r.Success? <==> Listable(fs, root)
    ensures r.Success? ==> r.value.Keys == fs.SubDirs(CharactersPath(root))
    ensures r.Success? ==> forall n :: n in r.value ==> Lists(fs, root, n, r.value[n])
  {
    var listed := ListCharacters(fs, root);
    if listed.Failure? {
      return Failure(Unlisted(listed.error));
    }
    r := CollectEntries(fs, root, listed.value);
  }

  /** The loop of `get_characters()` over the profiles `list_characters()` returned. */
  method CollectEntries(fs: FileSystem, root: Path, profiles: map<string, Value>)
    returns (r: Result<map<string, CharacterResponse>, ApiError>)
    requires fs.Valid() && Profiles(fs, root, profiles)
    modifies fs`dirs
    ensures fs.dirs == old(fs.dirs)
    ensures r.Success? <==> Listable(fs, root)
    ensures r.Success? ==> r.value.Keys == profiles.Keys
    ensures r.Success? ==> forall n :: n in r.value ==> Lists(fs, root, n, r.value[n])
  {
    ghost var dirs0 := fs.dirs;
    var remaining := profiles.Keys;
    var response: map<string, CharacterResponse> := map[];
    while remaining != {}
      invariant fs.Valid() && fs.dirs == dirs0 && Profiles(fs, root, profiles)
      invariant remaining <= profiles.Keys
      invariant response.Keys == profiles.Keys - remaining
      invariant forall n :: n in response ==> Lists(fs, root, n, response[n])
      decreases remaining
    {
      var cid :| cid in remaining;
      var entry := CharacterEntry(fs, root, cid, profiles[cid]);
      if entry.Failure? {
        return Failure(entry.error);
      }
      response := response[cid := entry.value];
      remaining := remaining - {cid};
    }
    ListedAll(fs, root, response);
    r := Success(response);
  }

  /**
   * One entry of `get_characters()`: the response for the character
   * directory `cid` whose profile is `info`. Asking for the latest job
   * creates no directory, since the character's own directory exists.
   */
  method CharacterEntry(fs: FileSystem, root: Path, cid: string, info: Value) returns (r: Result<CharacterResponse, ApiError>)
    requires fs.Valid() && !fs.BlockedByFile(CharactersPath(root)) && ProfilesReadable(fs, root)
    requires cid in fs.SubDirs(CharactersPath(root)) && ProfileOf(fs, root, cid) == Success(info)
    modifies fs`dirs
    ensures fs.dirs == old(fs.dirs)
    ensures r.Success? ==> Lists(fs, root, cid, r.value)
    ensures r.Failure? ==> !Listable(fs, root)
  {
    assert Child(CharactersPath(root), cid) in fs.dirs;
    fs.DirPrefixes(CharacterPath(root, cid));
    var latest := LatestJob(fs, root, cid);
    if latest.Failure? {
      UnlistableAt(fs, root, cid);
      return Failure(FsError(latest.error));
    }
    var view := CharacterView(cid, info, latest.value);
    if view.Failure? {
      UnlistableAt(fs, root, cid);
      return Failure(view.error);
    }
    r := Success(view.value);
  }

  /** `profiles` is what `list_characters()` returned. */
  ghost predicate Profiles(fs: FileSystem, root: Path, profiles: map<string, Value>)
    reads fs
  {
    && !fs.BlockedByFile(CharactersPath(root)) && ProfilesReadable(fs, root)
    && profiles.Keys == fs.SubDirs(CharactersPath(root))
    && forall n :: n in profiles ==> ProfileOf(fs, root, n) == Success(profiles[n])
  }

  /** A listing whose every entry is found makes the characters listable. */
  lemma ListedAll(fs: FileSystem, root: Path, response: map<string, CharacterResponse>)
    requires !fs.BlockedByFile(CharactersPath(root)) && ProfilesReadable(fs, root)
    requires response.Keys == fs.SubDirs(CharactersPath(root))
    requires forall n :: n in response ==> Lists(fs, root, n, response[n])
    ensures Listable(fs, root)
  {
  }

  /** One character directory whose outputs are a file, or whose profile does not fit, spoils the listing. */
  lemma UnlistableAt(fs: FileSystem, root: Path, cid: string)
    requires cid in fs.SubDirs(CharactersPath(root)) && ProfileOf(fs, root, cid).Success?
    requires OutputsPath(root, cid) in fs.files || !Showable(ProfileOf(fs, root, cid).value)
    ensures !Listable(fs, root)
  {
  }

  // ----- run_job -----

  /** `settings.data_root / "tmp"`. */
  function TmpDir(root: Path): Path { Child(root, "tmp") }

  /**
   * `tmp_name`: the character id, a dash, the hex token, then the suffix of
   * the uploaded file's name, or `.png` when the upload has no name.
   */
  function TempName(cid: string, hex: string, filename: Option<string>): string {
    if filename.Some? && filename.value != "" then cid + "-" + hex + Suffix(NameOf(filename.value))
    else cid + "-" + hex + ".png"
  }

  function TempPath(root: Path, cid: string, hex: string, filename: Option<string>): Path {
    Child(TmpDir(root), TempName(cid, hex, filename))
  }

  /**
   * The temporary name starts with the id and the token. Only a missing or
   * empty file name gets `.png`. A base name without a dot gives no
   * extension at all. Otherwise the extension is the base name's last
   * suffix: a dot followed by dot-free characters, ending that name. The
   * name holds no `/` that the id and the token do not hold.
   */
  lemma TempNameShape(cid: string, hex: string, filename: Option<string>)
    ensures StartsWith(TempName(cid, hex, filename), cid + "-" + hex)
    ensures filename.None? || filename.value == "" ==> TempName(cid, hex, filename) == cid + "-" + hex + ".png"
    ensures filename.Some? && filename.value != "" && '.' !in NameOf(filename.value) ==>
      TempName(cid, hex, filename) == cid + "-" + hex
    ensures filename.Some? && filename.value != "" ==>
      var x := TempName(cid, hex, filename)[|cid| + 1 + |hex|..];
      x == "" || (|x| >= 2 && x[0] == '.' && '.' !in x[1..] && EndsWith(NameOf(filename.value), x))
    ensures '/' !in cid && '/' !in hex ==> '/' !in TempName(cid, hex, filename)
  {
    var head := cid + "-" + hex;
    var tail := if filename.Some? && filename.value != "" then Suffix(NameOf(filename.value)) else ".png";
    assert TempName(cid, hex, filename) == head + tail;
    assert (head + tail)[..|head|] == head;
    assert (head + tail)[|head|..] == tail;
    if filename.Some? && filename.value != "" {
      var n := NameOf(filename.value);
      SuffixShape(n);
      if '.' !in n {
        SuffixNoDot(n);
        assert head + tail == head;
      }
      if tail != "" {
        forall k | 0 <= k < |tail| ensures tail[k] != '/' {
          assert tail[k] == n[|n| - |tail| + k];
        }
      }
    }
  }

  /**
   * The uploaded file leads to a complete run: the temporary directory can
   * be made, the upload is not empty, no directory stands at its path, PIL
   * reads it, and nothing blocks the pipeline's directories and files.
   */
  predicate Uploadable(fs: FileSystem, root: Path, cid: string, hex: string, filename: Option<string>,
                       contents: seq<byte>, job: string,
                       texture: Content -> Option<seq<byte>>, preview: Content -> Option<seq<byte>>)
    reads fs
  {
    UploadableIn(fs.dirs, fs.files, root, cid, hex, filename, contents, job, texture, preview)
  }

  /** `Uploadable` for the directories `dirs` and the files `files`. */
  predicate UploadableIn(dirs: set<Path>, files: map<Path, Content>, root: Path, cid: string, hex: string,
                         filename: Option<string>, contents: seq<byte>, job: string,
                         texture: Content -> Option<seq<byte>>, preview: Content -> Option<seq<byte>>)
  {
    var temp := TempPath(root, cid, hex, filename);
    && !Blocked(files, TmpDir(root)) && contents != [] && temp !in dirs
    && texture(BytesFile(contents)).Some? && preview(BytesFile(contents)).Some?
    && !Blocked(files, InputsPath(root, cid, job)) && !Blocked(files, JobPath(root, cid, job))
    && InputTarget(root, cid, job, temp) !in dirs
    && OutputsFree(dirs, root, cid, job)
  }

  /**
   * Making `tmp` and writing the upload there changes nothing the pipeline
   * looks at: all of that lies under `characters`.
   */
  lemma UploadAside(dirs: set<Path>, files: map<Path, Content>, root: Path, cid: string, job: string,
                    name: string, c: Content)
    ensures var temp := Child(TmpDir(root), name);
      var dirs' := dirs + Prefixes(TmpDir(root));
      var files' := files[temp := c];
      && (Blocked(files', InputsPath(root, cid, job)) == Blocked(files, InputsPath(root, cid, job)))
      && (Blocked(files', JobPath(root, cid, job)) == Blocked(files, JobPath(root, cid, job)))
      && (InputTarget(root, cid, job, temp) in dirs' <==> InputTarget(root, cid, job, temp) in dirs)
      && (OutputsFree(dirs', root, cid, job) <==> OutputsFree(dirs, root, cid, job))
      && (temp in dirs' <==> temp in dirs)
  {
    var temp := Child(TmpDir(root), name);
    var n := |root|;
    assert temp[n] == "tmp";
    assert InputsPath(root, cid, job)[n] == "characters";
    assert JobPath(root, cid, job)[n] == "characters";
    BlockedAfterWrite(files, temp, c, InputsPath(root, cid, job));
    BlockedAfterWrite(files, temp, c, JobPath(root, cid, job));
  }

  /**
   * The temporary file of a run is neither a directory the pipeline makes nor
   * one of its ancestors, nor is `tmp` under `characters`.
   */
  lemma TempAside(root: Path, cid: string, job: string, name: string)
    ensures Child(TmpDir(root), name) !in Prefixes(InputsPath(root, cid, job)) + Prefixes(JobPath(root, cid, job)) + Prefixes(TmpDir(root))
  {
    var temp := Child(TmpDir(root), name);
    var n := |root|;
    assert temp[n] == "tmp";
    assert InputsPath(root, cid, job)[n] == "characters";
    assert JobPath(root, cid, job)[n] == "characters";
  }

  /**
   * `run_job(cid, file)`: makes `tmp`, refuses an empty upload before
   * writing anything, writes the upload to its temporary path, runs the
   * pipeline on it and then removes it, whether the run succeeded or not.
   */
  method RunJob(fs: FileSystem, pipeline: RiggingPipeline, root: Path, cid: string, filename: Option<string>,
                contents: seq<byte>, hex: string, token: string, stamp: string,
                texture: Content -> Option<seq<byte>>, preview: Content -> Option<seq<byte>>)
    returns (r: Result<Entries, ApiError>)
    requires fs.Valid() && IsUuidHex(token)
    modifies fs
    ensures fs.Valid()
    ensures old(fs.BlockedByFile(TmpDir(root))) ==> r.Failure? && r.error.FsError? && fs.files == old(fs.files) && fs.log == old(fs.log)
    ensures !old(fs.BlockedByFile(TmpDir(root))) && contents == [] ==>
      r == Failure(EmptyUpload) && fs.files == old(fs.files) && fs.log == old(fs.log)
    ensures r.Failure? ==> r.error.FsError? || r.error == EmptyUpload || r.error.Failed?
    ensures Leased(r)
    ensures r == Failure(EmptyUpload) ==> contents == []
    ensures !old(fs.BlockedByFile(TmpDir(root))) && contents != [] ==> TempPath(root, cid, hex, filename) !in fs.files
    ensures r.Success? <==> old(Uploadable(fs, root, cid, hex, filename, contents, JobId(token), texture, preview))
    ensures r.Success? ==> r.value == AsResponse(ResultFor(root, cid, JobId(token)))
    ensures r.Success? ==> fs.files == JobFiles(pipeline, old(fs.files), root, cid, hex, filename, contents, token, stamp, texture, preview)
    ensures r.Success? ==>
      fs.log == old(fs.log) + [Wrote(TempPath(root, cid, hex, filename))]
        + PlannedWrites(root, cid, JobId(token), TempPath(root, cid, hex, filename)) + [Removed(TempPath(root, cid, hex, filename))]
    ensures r.Success? ==> fs.dirs == old(fs.dirs) + JobDirs(root, cid, token)
    ensures GrowsWithin(old(fs.dirs), fs.dirs, JobDirs(root, cid, token))
    ensures old(fs.BlockedByFile(TmpDir(root))) ==> fs.dirs == old(fs.dirs)
    ensures SameOutside(old(fs.files), fs.files, JobPaths(root, cid, hex, filename, token))
  {
    ghost var dirs0 := fs.dirs;
    ghost var files0 := fs.files;
    var saved := SaveUpload(fs, root, cid, hex, filename, contents);
    if saved.Failure? {
      return Failure(saved.error);
    }
    var temp := saved.value;
    UploadedRunnable(dirs0, files0, root, cid, hex, filename, contents, JobId(token), texture, preview);
    TempAside(root, cid, JobId(token), TempName(cid, hex, filename));
    ghost var files1 := fs.files;
    assert files1 == files0[temp := BytesFile(contents)];
    ghost var dirs1 := fs.dirs;
    r := RunUploaded(fs, pipeline, root, cid, temp, token, stamp, texture, preview);
    DirsGrowInTurn(dirs0, dirs1, fs.dirs, Prefixes(TmpDir(root)), RunDirs(root, cid, JobId(token)));
    GrowsWithinOf(dirs0, fs.dirs, JobDirs(root, cid, token));
    SameOutsideAbsorbs(files0, files1, fs.files, temp, RunPaths(root, cid, JobId(token), temp));
  }

  /** After the upload is saved, the pipeline can run on it exactly when the upload was acceptable. */
  lemma UploadedRunnable(dirs: set<Path>, files: map<Path, Content>, root: Path, cid: string, hex: string,
                         filename: Option<string>, contents: seq<byte>, job: string,
                         texture: Content -> Option<seq<byte>>, preview: Content -> Option<seq<byte>>)
    requires !Blocked(files, TmpDir(root)) && contents != [] && TempPath(root, cid, hex, filename) !in dirs
    ensures UploadableIn(dirs, files, root, cid, hex, filename, contents, job, texture, preview)
      <==> RunnableIn(dirs + Prefixes(TmpDir(root)), files[TempPath(root, cid, hex, filename) := BytesFile(contents)],
                      root, cid, job, TempPath(root, cid, hex, filename), texture, preview)
  {
    UploadAside(dirs, files, root, cid, job, TempName(cid, hex, filename), BytesFile(contents));
  }

  /**
   * The first half of `run_job`: make `tmp`, refuse an empty upload, then
   * write the upload to its temporary path.
   */
  method SaveUpload(fs: FileSystem, root: Path, cid: string, hex: string, filename: Option<string>, contents: seq<byte>)
    returns (r: Result<Path, ApiError>)
    requires fs.Valid()
    modifies fs
    ensures fs.Valid()
    ensures r.Failure? ==> fs.files == old(fs.files) && fs.log == old(fs.log)
    ensures r.Failure? ==> r.error.FsError? || r.error == EmptyUpload
    ensures old(fs.BlockedByFile(TmpDir(root))) ==> r.Failure? && r.error.FsError?
    ensures r == Failure(EmptyUpload) <==> !old(fs.BlockedByFile(TmpDir(root))) && contents == []
    ensures r.Failure? && r.error.FsError? && !old(fs.BlockedByFile(TmpDir(root))) ==> TempPath(root, cid, hex, filename) in fs.dirs
    ensures r.Success? <==>
      !old(fs.BlockedByFile(TmpDir(root))) && contents != [] && TempPath(root, cid, hex, filename) !in old(fs.dirs)
    ensures r.Success? ==>
      && r.value == TempPath(root, cid, hex, filename)
      && fs.dirs == old(fs.dirs) + Prefixes(TmpDir(root))
      && fs.files == old(fs.files)[r.value := BytesFile(contents)]
      && fs.log == old(fs.log) + [Wrote(r.value)]
    ensures old(fs.dirs) <= fs.dirs <= old(fs.dirs) + Prefixes(TmpDir(root))
    ensures old(fs.BlockedByFile(TmpDir(root))) ==> fs.dirs == old(fs.dirs)
  {
    var tmp := TmpDir(root);
    var temp := Child(tmp, TempName(cid, hex, filename));
    var made := fs.MkDirs(tmp);
    if made.Fail? {
      return Failure(FsError(made.error));
    }
    if contents == [] {
      return Failure(EmptyUpload);
    }
    TempAside(root, "", "", TempName(cid, hex, filename));
    assert Parent(temp) == tmp && tmp[..|tmp|] == tmp;
    var written := fs.WriteFile(temp, BytesFile(contents));
    if written.Fail? {
      return Failure(FsError(written.error));
    }
    r := Success(temp);
  }

  /**
   * The second half of `run_job`: run the pipeline on the upload at `temp`,
   * then remove it (`missing_ok`), whether the run succeeded or not.
   */
  method RunUploaded(fs: FileSystem, pipeline: RiggingPipeline, root: Path, cid: string, temp: Path,
                     token: string, stamp: string,
                     texture: Content -> Option<seq<byte>>, preview: Content -> Option<seq<byte>>)
    returns (r: Result<Entries, ApiError>)
    requires fs.Valid() && IsUuidHex(token)
    requires temp !in RunDirs(root, cid, JobId(token))
    modifies fs
    ensures fs.Valid()
    ensures temp !in fs.files
    ensures r.Failure? ==> r.error.FsError? || r.error.Failed?
    ensures r.Success? <==> RunnableIn(old(fs.dirs), old(fs.files), root, cid, JobId(token), temp, texture, preview)
    ensures r.Success? ==> r.value == AsResponse(ResultFor(root, cid, JobId(token)))
    ensures r.Success? ==>
      fs.files == pipeline.RunFiles(old(fs.files), root, cid, JobId(token), temp, stamp,
        old(fs.files[temp]), texture(old(fs.files[temp])).value, preview(old(fs.files[temp])).value) - {temp}
    ensures r.Success? ==> fs.log == old(fs.log) + PlannedWrites(root, cid, JobId(token), temp) + [Removed(temp)]
    ensures r.Success? ==> fs.dirs == old(fs.dirs) + RunDirs(root, cid, JobId(token))
    ensures old(fs.dirs) <= fs.dirs <= old(fs.dirs) + RunDirs(root, cid, JobId(token))
    ensures SameOutside(old(fs.files), fs.files, RunPaths(root, cid, JobId(token), temp) + {temp})
  {
    var ran := pipeline.Run(fs, root, cid, temp, token, stamp, texture, preview);
    ghost var files1 := fs.files;
    ghost var dirs1 := fs.dirs;
    var removed := fs.Unlink(temp);
    assert fs.dirs == dirs1;
    SameOutsideTrans(old(fs.files), files1, fs.files, RunPaths(root, cid, JobId(token), temp), {temp});
    if removed.Fail? {
      return Failure(FsError(removed.error));
    }
    if ran.Failure? {
      return Failure(Failed(ran.error));
    }
    r := Success(AsResponse(ran.value));
  }

  /** The directories `run_job` may make: `tmp` and the run's. */
  function JobDirs(root: Path, cid: string, token: string): set<Path>
    requires IsUuidHex(token)
  {
    Prefixes(TmpDir(root)) + RunDirs(root, cid, JobId(token))
  }

  /** Adding `a`, then at most `b`, adds at most `a + b`; adding all of `b` adds exactly that. */
  lemma DirsGrowInTurn(d0: set<Path>, d1: set<Path>, d2: set<Path>, a: set<Path>, b: set<Path>)
    requires d1 == d0 + a && d1 <= d2 <= d1 + b
    ensures d0 <= d2 <= d0 + (a + b)
    ensures d2 == d1 + b ==> d2 == d0 + (a + b)
  {
  }

  /** The files `run_job` may write or remove: the pipeline's and the temporary upload. */
  function JobPaths(root: Path, cid: string, hex: string, filename: Option<string>, token: string): set<Path>
    requires IsUuidHex(token)
  {
    RunPaths(root, cid, JobId(token), TempPath(root, cid, hex, filename)) + {TempPath(root, cid, hex, filename)}
  }

  /** No character's profile is among the files a job may write or remove. */
  lemma JobKeepsProfiles(root: Path, cid: string, hex: string, filename: Option<string>, token: string, other: string)
    requires IsUuidHex(token)
    ensures ProfilePath(root, other) !in JobPaths(root, cid, hex, filename, token)
  {
    var temp := TempPath(root, cid, hex, filename);
    var job := JobId(token);
    assert |ProfilePath(root, other)| == |root| + 3;
    assert |temp| == |root| + 2;
    RunPathsDepth(root, cid, job, temp);
  }

  /** The files after a complete `run_job`: the run's files, without the temporary upload. */
  function JobFiles(pipeline: RiggingPipeline, files: map<Path, Content>, root: Path, cid: string, hex: string,
                    filename: Option<string>, contents: seq<byte>, token: string, stamp: string,
                    texture: Content -> Option<seq<byte>>, preview: Content -> Option<seq<byte>>): map<Path, Content>
    requires IsUuidHex(token) && texture(BytesFile(contents)).Some? && preview(BytesFile(contents)).Some?
  {
    var temp := TempPath(root, cid, hex, filename);
    pipeline.RunFiles(files[temp := BytesFile(contents)], root, cid, JobId(token), temp, stamp,
      BytesFile(contents), texture(BytesFile(contents)).value, preview(BytesFile(contents)).value) - {temp}
  }

  // ----- submit_job -----

  /** The request got as far as taking a GPU lease. */
  predicate Leased(r: Result<Entries, ApiError>) {
    !(r.Failure? && (r.error.Unlisted? || r.error.NotFound? || r.error.Busy?))
  }

  /**
   * `submit_job(cid, file)`: looks the character up first and answers 404
   * without a lease; otherwise runs the job inside `gpu_pool.reserve()`, so
   * the front GPU id is taken before the job and given back exactly once
   * after it, also when the upload is empty or the job fails.
   */
  method SubmitJob(fs: FileSystem, pool: Pool, pipeline: RiggingPipeline, root: Path, cid: string,
                   filename: Option<string>, contents: seq<byte>, hex: string, token: string, stamp: string,
                   texture: Content -> Option<seq<byte>>, preview: Content -> Option<seq<byte>>)
    returns (r: Result<Entries, ApiError>)
    requires fs.Valid() && pool.Valid() && IsUuidHex(token)
    modifies fs, pool
    ensures fs.Valid() && pool.Valid()
    ensures !Leased(r) ==> pool.available == old(pool.available) && pool.events == old(pool.events)
    ensures !Leased(r) ==> fs.files == old(fs.files) && fs.log == old(fs.log)
    ensures (r.Failure? && r.error.Unlisted?) <==>
      Blocked(old(fs.files), CharactersPath(root)) || !ReadableIn(old(fs.dirs), old(fs.files), root)
    ensures r == Failure(NotFound) <==>
      !Blocked(old(fs.files), CharactersPath(root)) && ReadableIn(old(fs.dirs), old(fs.files), root) && CharacterPath(root, cid) !in old(fs.dirs)
    ensures r == Failure(Busy) <==>
      CharacterPath(root, cid) in old(fs.dirs) && ReadableIn(old(fs.dirs), old(fs.files), root) && old(pool.available) == []
    ensures CharacterPath(root, cid) in old(fs.dirs) && ReadableIn(old(fs.dirs), old(fs.files), root) && old(pool.available) != [] ==>
      && Leased(r)
      && (r.Success? <==> UploadableIn(old(fs.dirs), old(fs.files), root, cid, hex, filename, contents, JobId(token), texture, preview))
      && (!Blocked(old(fs.files), TmpDir(root)) && contents == [] ==> r == Failure(EmptyUpload))
    ensures r == Failure(EmptyUpload) ==> contents == []
    ensures r.Success? ==> r.value == AsResponse(ResultFor(root, cid, JobId(token)))
    ensures r.Success? ==> fs.files == JobFiles(pipeline, old(fs.files), root, cid, hex, filename, contents, token, stamp, texture, preview)
    ensures SameOutside(old(fs.files), fs.files, JobPaths(root, cid, hex, filename, token))
    ensures r.Success? ==> fs.dirs == old(fs.dirs) + JobDirs(root, cid, token)
    ensures r.Failure? && (r.error.Unlisted? || r.error.NotFound?) ==>
      fs.dirs == if Blocked(old(fs.files), CharactersPath(root)) then old(fs.dirs) else old(fs.dirs) + Prefixes(CharactersPath(root))
    ensures r == Failure(Busy) ==> fs.dirs == old(fs.dirs)
    ensures GrowsWithin(old(fs.dirs), fs.dirs, Prefixes(CharactersPath(root)) + JobDirs(root, cid, token))
  {
    ghost var dirs0 := fs.dirs;
    var found := FindCharacter(fs, root, cid);
    if found.Fail? {
      GrowsWithinOf(dirs0, fs.dirs, Prefixes(CharactersPath(root)) + JobDirs(root, cid, token));
      return Failure(found.error);
    }
    ListingKeepsUploadable(dirs0, fs.files, root, cid, hex, filename, contents, JobId(token), texture, preview);
    r := ReservedRun(fs, pool, pipeline, root, cid, filename, contents, hex, token, stamp, texture, preview);
    GrowsWithinMore(dirs0, fs.dirs, JobDirs(root, cid, token), Prefixes(CharactersPath(root)));
  }

  /**
   * The lookup that opens `submit_job`: list the characters, failing as the
   * listing does, then answer 404 when `cid` is not among them. Only the
   * `characters` directory may be created.
   */
  method FindCharacter(fs: FileSystem, root: Path, cid: string) returns (r: Outcome<ApiError>)
    requires fs.Valid()
    modifies fs`dirs
    ensures fs.Valid() && fs.files == old(fs.files) && fs.log == old(fs.log)
    ensures r.Pass? ==> fs.dirs == old(fs.dirs)
    ensures !Blocked(old(fs.files), CharactersPath(root)) ==> fs.dirs == old(fs.dirs) + Prefixes(CharactersPath(root))
    ensures Blocked(old(fs.files), CharactersPath(root)) ==> fs.dirs == old(fs.dirs)
    ensures r.Fail? ==> r.error.Unlisted? || r.error.NotFound?
    ensures (r.Fail? && r.error.Unlisted?) <==>
      Blocked(old(fs.files), CharactersPath(root)) || !ReadableIn(old(fs.dirs), old(fs.files), root)
    ensures r.Pass? <==>
      !Blocked(old(fs.files), CharactersPath(root)) && ReadableIn(old(fs.dirs), old(fs.files), root) && CharacterPath(root, cid) in old(fs.dirs)
    ensures CharacterPath(root, cid) in old(fs.dirs) ==> !Blocked(old(fs.files), CharactersPath(root))
  {
    if CharacterPath(root, cid) in fs.dirs {
      fs.DirPrefixes(CharacterPath(root, cid));
      PrefixesGrow(CharactersPath(root), [cid]);
    }
    ReadableNow(fs, root);
    var listed := ListCharacters(fs, root);
    if listed.Failure? {
      return Fail(Unlisted(listed.error));
    }
    assert CharacterPath(root, cid) !in Prefixes(CharactersPath(root));
    if cid !in listed.value {
      return Fail(NotFound);
    }
    r := Pass;
  }

  /** Making `characters` changes nothing an upload needs, all of which lies deeper or under `tmp`. */
  lemma ListingKeepsUploadable(dirs: set<Path>, files: map<Path, Content>, root: Path, cid: string, hex: string,
                               filename: Option<string>, contents: seq<byte>, job: string,
                               texture: Content -> Option<seq<byte>>, preview: Content -> Option<seq<byte>>)
    ensures UploadableIn(dirs + Prefixes(CharactersPath(root)), files, root, cid, hex, filename, contents, job, texture, preview)
      <==> UploadableIn(dirs, files, root, cid, hex, filename, contents, job, texture, preview)
  {
    var made := Prefixes(CharactersPath(root));
    assert forall q :: q in made ==> |q| <= |root| + 1;
    var jobDir := JobPath(root, cid, job);
    assert |TempPath(root, cid, hex, filename)| == |root| + 2;
    assert |InputTarget(root, cid, job, TempPath(root, cid, hex, filename))| == |root| + 5;
    assert |jobDir| == |root| + 4;
    assert OutputsFree(dirs + made, root, cid, job) == OutputsFree(dirs, root, cid, job);
  }

  /**
   * The `with gpu_pool.reserve()` block of `submit_job`: takes the front GPU
   * id, runs the job and gives the id back once, whatever the job's outcome.
   * With no id free the request is refused as busy before anything else.
   */
  method ReservedRun(fs: FileSystem, pool: Pool, pipeline: RiggingPipeline, root: Path, cid: string,
                     filename: Option<string>, contents: seq<byte>, hex: string, token: string, stamp: string,
                     texture: Content -> Option<seq<byte>>, preview: Content -> Option<seq<byte>>)
    returns (r: Result<Entries, ApiError>)
    requires fs.Valid() && pool.Valid() && IsUuidHex(token)
    modifies fs, pool
    ensures fs.Valid() && pool.Valid()
    ensures r == Failure(Busy) <==> old(pool.available) == []
    ensures r.Failure? ==> r.error.Busy? || r.error.FsError? || r.error == EmptyUpload || r.error.Failed?
    ensures Leased(r) <==> old(pool.available) != []
    ensures !Leased(r) ==>
      pool.available == old(pool.available) && pool.events == old(pool.events)
      && fs.files == old(fs.files) && fs.log == old(fs.log) && fs.dirs == old(fs.dirs)
    ensures r.Success? ==> fs.dirs == old(fs.dirs) + JobDirs(root, cid, token)
    ensures GrowsWithin(old(fs.dirs), fs.dirs, JobDirs(root, cid, token))
    ensures old(pool.available) != [] ==>
      && pool.events == old(pool.events) + [Acquired(old(pool.available)[0]), Released(old(pool.available)[0])]
      && pool.available == ReleaseQueue(old(pool.available)[1..], pool.maxSlots, old(pool.available)[0])
    ensures r == Failure(EmptyUpload) ==> contents == []
    ensures r.Success? ==> contents != [] && texture(BytesFile(contents)).Some? && preview(BytesFile(contents)).Some?
    ensures r.Success? ==> r.value == AsResponse(ResultFor(root, cid, JobId(token)))
    ensures r.Success? ==> fs.files == JobFiles(pipeline, old(fs.files), root, cid, hex, filename, contents, token, stamp, texture, preview)
    ensures SameOutside(old(fs.files), fs.files, JobPaths(root, cid, hex, filename, token))
    ensures old(pool.available) != [] ==>
      (r.Success? <==> UploadableIn(old(fs.dirs), old(fs.files), root, cid, hex, filename, contents, JobId(token), texture, preview))
    ensures old(pool.available) != [] && !Blocked(old(fs.files), TmpDir(root)) && contents == [] ==> r == Failure(EmptyUpload)
  {
    ghost var dirs0, files0, log0 := fs.dirs, fs.files, fs.log;
    ghost var available0, events0 := pool.available, pool.events;
    var gpu := pool.Acquire();
    assert fs.dirs == dirs0 && fs.files == files0 && fs.log == log0;
    if gpu.None? {
      return Failure(Busy);
    }
    ghost var available1 := pool.available;
    ghost var events1 := pool.events;
    assert events1 + [Released(gpu.value)] == events0 + [Acquired(available0[0]), Released(available0[0])];
    r := RunJob(fs, pipeline, root, cid, filename, contents, hex, token, stamp, texture, preview);
    assert pool.available == available1 && pool.events == events1;
    ghost var dirs2, files2, log2 := fs.dirs, fs.files, fs.log;
    pool.Release(gpu.value);
    assert fs.dirs == dirs2 && fs.files == files2 && fs.log == log2;
  }
}
