/**
 * server/app/storage.py: the on-disk layout under the data root
 *
 *   characters/<cid>/character.json
 *   characters/<cid>/inputs/<job>/<file>
 *   characters/<cid>/outputs/<job>/metadata.json
 *
 * and the operations that create it, save into it and read it back. The
 * data root is a parameter; `utc_timestamp()` is the `stamp` argument.
 */
module Storage {
  import opened Wrappers
  import opened Text
  import opened Values
  import opened Paths
  import opened FileSystem

  function CharactersPath(root: Path): Path { Child(root, "characters") }
  function CharacterPath(root: Path, cid: string): Path { Child(CharactersPath(root), cid) }
  function ProfilePath(root: Path, cid: string): Path { Child(CharacterPath(root, cid), "character.json") }
  function OutputsPath(root: Path, cid: string): Path { Child(CharacterPath(root, cid), "outputs") }
  function JobPath(root: Path, cid: string, job: string): Path { Child(OutputsPath(root, cid), job) }
  function MetadataPath(root: Path, cid: string, job: string): Path { Child(JobPath(root, cid, job), "metadata.json") }
  function InputsPath(root: Path, cid: string, job: string): Path { Child(Child(CharacterPath(root, cid), "inputs"), job) }

  /**
   * The layout keeps inputs, outputs and the profile apart: a job's input
   * directory, its output directory and a character's profile are three
   * different paths, none inside another.
   */
  lemma LayoutSeparates(root: Path, cid: string, job: string)
    ensures JobPath(root, cid, job) != InputsPath(root, cid, job)
    ensures MetadataPath(root, cid, job)[..|JobPath(root, cid, job)|] == JobPath(root, cid, job)
    ensures ProfilePath(root, cid) !in Prefixes(JobPath(root, cid, job))
    ensures ProfilePath(root, cid) !in Prefixes(InputsPath(root, cid, job))
    ensures forall q :: q in Prefixes(InputsPath(root, cid, job)) ==> q !in Prefixes(JobPath(root, cid, job)) || |q| <= |CharacterPath(root, cid)|
  {
    var c := CharacterPath(root, cid);
    assert JobPath(root, cid, job)[|c|] == "outputs";
    assert InputsPath(root, cid, job)[|c|] == "inputs";
    forall q | q in Prefixes(InputsPath(root, cid, job)) && q in Prefixes(JobPath(root, cid, job))
      ensures |q| <= |c|
    {
      if |q| > |c| {
        assert false;
      }
    }
  }

  /** `characters_root()`: creates `<root>/characters` if missing and returns it. */
  method CharactersRoot(fs: FileSystem, root: Path) returns (r: Result<Path, IoError>)
    requires fs.Valid()
    modifies fs`dirs
    ensures fs.Valid() && fs.files == old(fs.files)
    ensures r.Success? <==> !fs.BlockedByFile(CharactersPath(root))
    ensures r.Success? ==> r.value == CharactersPath(root)
    ensures r.Success? ==> fs.dirs == old(fs.dirs) + Prefixes(CharactersPath(root))
    ensures r.Failure? ==> fs.dirs == old(fs.dirs)
  {
    var path := Child(root, "characters");
    :- fs.MkDirs(path);
    r := Success(path);
  }

  /**
   * `character_dir(cid)`: creates the character's directory and its
   * ancestors if missing and returns it. On an existing directory it
   * changes nothing.
   */
  method CharacterDir(fs: FileSystem, root: Path, cid: string) returns (r: Result<Path, IoError>)
    requires fs.Valid()
    modifies fs`dirs
    ensures fs.Valid() && fs.files == old(fs.files)
    ensures r.Success? <==> !fs.BlockedByFile(CharacterPath(root, cid))
    ensures r.Success? ==> r.value == CharacterPath(root, cid)
    ensures r.Success? ==> fs.dirs == old(fs.dirs) + Prefixes(CharacterPath(root, cid))
    ensures r.Failure? ==> old(fs.dirs) <= fs.dirs <= old(fs.dirs) + Prefixes(CharacterPath(root, cid))
    ensures CharacterPath(root, cid) in old(fs.dirs) ==> r.Success? && fs.dirs == old(fs.dirs)
  {
    if CharacterPath(root, cid) in fs.dirs {
      fs.DirPrefixes(CharacterPath(root, cid));
    }
    PrefixesGrow(CharactersPath(root), [cid]);
    if fs.BlockedByFile(CharactersPath(root)) {
      fs.BlockedGrows(CharactersPath(root), [cid]);
    }
    var base :- CharactersRoot(fs, root);
    var directory := Child(base, cid);
    :- fs.MkDirs(directory);
    r := Success(directory);
  }

  /** `job_dir(cid, job)`: creates `characters/<cid>/outputs/<job>` if missing and returns it. */
  method JobDir(fs: FileSystem, root: Path, cid: string, job: string) returns (r: Result<Path, IoError>)
    requires fs.Valid()
    modifies fs`dirs
    ensures fs.Valid() && fs.files == old(fs.files)
    ensures r.Success? <==> !fs.BlockedByFile(JobPath(root, cid, job))
    ensures r.Success? ==> r.value == JobPath(root, cid, job)
    ensures r.Success? ==> fs.dirs == old(fs.dirs) + Prefixes(JobPath(root, cid, job))
    ensures r.Failure? ==> old(fs.dirs) <= fs.dirs <= old(fs.dirs) + Prefixes(JobPath(root, cid, job))
    ensures JobPath(root, cid, job) in old(fs.dirs) ==> r.Success? && fs.dirs == old(fs.dirs)
  {
    if JobPath(root, cid, job) in fs.dirs {
      fs.DirPrefixes(JobPath(root, cid, job));
    }
    PrefixesGrow(CharacterPath(root, cid), ["outputs", job]);
    assert CharacterPath(root, cid) + ["outputs", job] == JobPath(root, cid, job);
    if fs.BlockedByFile(CharacterPath(root, cid)) {
      fs.BlockedGrows(CharacterPath(root, cid), ["outputs", job]);
    }
    var character :- CharacterDir(fs, root, cid);
    var directory := Child(Child(character, "outputs"), job);
    :- fs.MkDirs(directory);
    r := Success(directory);
  }

  /** `job_metadata_path(cid, job)`: `metadata.json` inside the job directory, which it creates. */
  method JobMetadataPath(fs: FileSystem, root: Path, cid: string, job: string) returns (r: Result<Path, IoError>)
    requires fs.Valid()
    modifies fs`dirs
    ensures fs.Valid() && fs.files == old(fs.files)
    ensures r.Success? <==> !fs.BlockedByFile(JobPath(root, cid, job))
    ensures r.Success? ==> r.value == MetadataPath(root, cid, job)
    ensures r.Success? ==> fs.dirs == old(fs.dirs) + Prefixes(JobPath(root, cid, job))
    ensures r.Failure? ==> old(fs.dirs) <= fs.dirs <= old(fs.dirs) + Prefixes(JobPath(root, cid, job))
  {
    var directory :- JobDir(fs, root, cid, job);
    r := Success(Child(directory, "metadata.json"));
  }

  /**
   * `save_metadata(cid, job, metadata)`: writes the record as JSON to the
   * job's `metadata.json` and no other file.
   */
  method SaveMetadata(fs: FileSystem, root: Path, cid: string, job: string, metadata: Value)
    returns (r: Outcome<IoError>)
    requires fs.Valid()
    modifies fs
    ensures fs.Valid()
    ensures r.Pass? <==> !old(fs.BlockedByFile(JobPath(root, cid, job))) && MetadataPath(root, cid, job) !in old(fs.dirs)
    ensures r.Pass? ==> fs.files == old(fs.files)[MetadataPath(root, cid, job) := JsonFile(metadata)]
    ensures r.Pass? ==> fs.log == old(fs.log) + [Wrote(MetadataPath(root, cid, job))]
    ensures !old(fs.BlockedByFile(JobPath(root, cid, job))) ==> fs.dirs == old(fs.dirs) + Prefixes(JobPath(root, cid, job))
    ensures r.Fail? ==> fs.files == old(fs.files) && fs.log == old(fs.log)
  {
    var path := JobMetadataPath(fs, root, cid, job);
    if path.Failure? {
      return Fail(path.error);
    }
    assert MetadataPath(root, cid, job) !in Prefixes(JobPath(root, cid, job));
    assert Parent(path.value) == JobPath(root, cid, job);
    assert JobPath(root, cid, job)[..|JobPath(root, cid, job)|] == JobPath(root, cid, job);
    r := fs.WriteFile(path.value, JsonFile(metadata));
  }

  /** What `list_characters()` reports for the directory `name`. */
  function ProfileOf(fs: FileSystem, root: Path, name: string): Result<Value, IoError>
    reads fs
  {
    ProfileIn(fs.dirs, fs.files, root, name)
  }

  /** `ProfileOf` on the tree with directories `dirs` and files `files`. */
  function ProfileIn(dirs: set<Path>, files: map<Path, Content>, root: Path, name: string): Result<Value, IoError> {
    var info := ProfilePath(root, name);
    if info in dirs || info in files then JsonIn(dirs, files, info) else Success(DefaultProfile(name))
  }

  /** The record of a character directory that has no `character.json`. */
  function DefaultProfile(name: string): Value {
    VDict([("character_id", VStr(name))])
  }

  /** Every character directory's profile can be read. */
  predicate ProfilesReadable(fs: FileSystem, root: Path)
    reads fs
  {
    forall n :: n in fs.SubDirs(CharactersPath(root)) ==> ProfileOf(fs, root, n).Success?
  }

  /**
   * `list_characters()`: one entry per directory under `characters`, keyed
   * by its name; its profile when `character.json` exists, the default
   * record otherwise. Plain files there are skipped; an unreadable profile
   * is an error.
   */
  method ListCharacters(fs: FileSystem, root: Path) returns (r: Result<map<string, Value>, IoError>)
    requires fs.Valid()
    modifies fs`dirs
    ensures fs.Valid() && fs.files == old(fs.files)
    ensures fs.BlockedByFile(CharactersPath(root)) ==> r.Failure? && fs.dirs == old(fs.dirs)
    ensures !fs.BlockedByFile(CharactersPath(root)) ==> fs.dirs == old(fs.dirs) + Prefixes(CharactersPath(root))
    ensures r.Success? <==> !fs.BlockedByFile(CharactersPath(root)) && ProfilesReadable(fs, root)
    ensures r.Success? <==> !old(fs.BlockedByFile(CharactersPath(root))) && old(ProfilesReadable(fs, root))
    ensures r.Success? ==> r.value.Keys == fs.SubDirs(CharactersPath(root))
    ensures r.Success? ==> forall n :: n in r.value ==> ProfileOf(fs, root, n) == Success(r.value[n])
  {
    ghost var dirs0 := fs.dirs;
    ReadableNow(fs, root);
    var made := CharactersRoot(fs, root);
    if made.Failure? {
      assert Blocked(fs.files, CharactersPath(root));
      return Failure(made.error);
    }
    var base := made.value;
    MkDirKeepsProfiles(dirs0, fs.files, root);
    ReadableNow(fs, root);
    r := CollectProfiles(fs, root, fs.SubDirs(base));
  }

  /** Every directory `n` under `characters` has a readable profile, on the given tree. */
  ghost predicate ReadableIn(dirs: set<Path>, files: map<Path, Content>, root: Path) {
    forall n :: Child(CharactersPath(root), n) in dirs ==> ProfileIn(dirs, files, root, n).Success?
  }

  /** `ProfilesReadable` is `ReadableIn` on the current tree. */
  lemma ReadableNow(fs: FileSystem, root: Path)
    ensures ProfilesReadable(fs, root) <==> ReadableIn(fs.dirs, fs.files, root)
  {
    var names := fs.SubDirs(CharactersPath(root));
    assert forall n :: n in names <==> Child(CharactersPath(root), n) in fs.dirs;
  }

  /**
   * Making `characters` and its ancestors changes no character's directory
   * and no profile, so it cannot make the listing fail or succeed.
   */
  lemma MkDirKeepsProfiles(dirs: set<Path>, files: map<Path, Content>, root: Path)
    ensures ReadableIn(dirs + Prefixes(CharactersPath(root)), files, root) <==> ReadableIn(dirs, files, root)
  {
    var made := Prefixes(CharactersPath(root));
    forall n ensures (Child(CharactersPath(root), n) in dirs + made <==> Child(CharactersPath(root), n) in dirs)
      && ProfileIn(dirs + made, files, root, n) == ProfileIn(dirs, files, root, n)
    {
      assert Child(CharactersPath(root), n) !in made;
      assert ProfilePath(root, n) !in made;
    }
  }

  /** The loop of `list_characters()` over the directory names `names`. */
  method CollectProfiles(fs: FileSystem, root: Path, names: set<string>) returns (r: Result<map<string, Value>, IoError>)
    ensures r.Success? <==> forall n :: n in names ==> ProfileOf(fs, root, n).Success?
    ensures r.Success? ==> r.value.Keys == names
    ensures r.Success? ==> forall n :: n in r.value ==> ProfileOf(fs, root, n) == Success(r.value[n])
  {
    var result: map<string, Value> := map[];
    var remaining := names;
    while remaining != {}
      invariant remaining <= names
      invariant result.Keys == names - remaining
      invariant forall n :: n in result ==> ProfileOf(fs, root, n) == Success(result[n])
      decreases remaining
    {
      var name :| name in remaining;
      var infoFile := Child(Child(CharactersPath(root), name), "character.json");
      var info: Value;
      if fs.Exists(infoFile) {
        var loaded := fs.ReadJson(infoFile);
        if loaded.Failure? {
          return Failure(loaded.error);
        }
        info := loaded.value;
      } else {
        info := VDict([("character_id", VStr(name))]);
      }
      result := result[name := info];
      remaining := remaining - {name};
    }
    r := Success(result);
  }

  /** `{"character_id": cid, **payload, "updated_at": stamp}`. */
  function ProfileRecord(cid: string, payload: Entries, stamp: string): Entries {
    Merge(Merge([("character_id", VStr(cid))], payload), [("updated_at", VStr(stamp))])
  }

  /**
   * A saved profile starts with `character_id`; the payload's keys override
   * it and keep their values; `updated_at` is always the stamp; and no key
   * occurs twice.
   */
  lemma ProfileMergeOrder(cid: string, payload: Entries, stamp: string)
    requires UniqueKeys(payload)
    ensures var p := ProfileRecord(cid, payload, stamp);
      && UniqueKeys(p)
      && |p| >= 1 && Keys(p)[0] == "character_id"
      && Get(p, "updated_at") == Some(VStr(stamp))
      && Get(p, "character_id") == (if "character_id" in Keys(payload) then Get(payload, "character_id") else Some(VStr(cid)))
      && (forall k :: k != "character_id" && k != "updated_at" ==> Get(p, k) == Get(payload, k))
  {
    var first: Entries := [("character_id", VStr(cid))];
    var middle := Merge(first, payload);
    var last: Entries := [("updated_at", VStr(stamp))];
    assert Keys(last) == ["updated_at"];
    assert Keys(first) == ["character_id"];
    MergeKeepsPrefix(first, payload);
    MergeKeepsPrefix(middle, last);
    MergeUnique(first, payload);
    MergeUnique(middle, last);
    forall k ensures Get(ProfileRecord(cid, payload, stamp), k)
      == if k == "updated_at" then Some(VStr(stamp)) else Get(middle, k)
    {
      MergeGet(middle, last, k);
    }
    forall k ensures Get(middle, k) == if k in Keys(payload) then Get(payload, k) else Get(first, k) {
      MergeGet(first, payload, k);
    }
  }

  /**
   * `save_character_profile(cid, payload)`: writes the merged profile to
   * `character.json` in the character's directory, creating it if missing.
   */
  method SaveCharacterProfile(fs: FileSystem, root: Path, cid: string, payload: Entries, stamp: string)
    returns (r: Outcome<IoError>)
    requires fs.Valid()
    modifies fs
    ensures fs.Valid()
    ensures r.Pass? <==> !old(fs.BlockedByFile(CharacterPath(root, cid))) && ProfilePath(root, cid) !in old(fs.dirs)
    ensures r.Pass? ==> fs.files == old(fs.files)[ProfilePath(root, cid) := JsonFile(VDict(ProfileRecord(cid, payload, stamp)))]
    ensures r.Pass? ==> fs.log == old(fs.log) + [Wrote(ProfilePath(root, cid))]
    ensures !old(fs.BlockedByFile(CharacterPath(root, cid))) ==> fs.dirs == old(fs.dirs) + Prefixes(CharacterPath(root, cid))
    ensures old(fs.dirs) <= fs.dirs <= old(fs.dirs) + Prefixes(CharacterPath(root, cid))
    ensures r.Fail? ==> fs.files == old(fs.files) && fs.log == old(fs.log)
  {
    var directory := CharacterDir(fs, root, cid);
    if directory.Failure? {
      return Fail(directory.error);
    }
    assert ProfilePath(root, cid) !in Prefixes(CharacterPath(root, cid));
    assert Parent(ProfilePath(root, cid)) == CharacterPath(root, cid);
    assert CharacterPath(root, cid)[..|CharacterPath(root, cid)|] == CharacterPath(root, cid);
    var profilePath := Child(directory.value, "character.json");
    var profile := ProfileRecord(cid, payload, stamp);
    r := fs.WriteFile(profilePath, JsonFile(VDict(profile)));
  }

  /**
   * `register_input_image(cid, job, filename)`: creates
   * `characters/<cid>/inputs/<job>` and returns the path of `filename` in
   * it, without creating the file.
   */
  method RegisterInputImage(fs: FileSystem, root: Path, cid: string, job: string, filename: string)
    returns (r: Result<Path, IoError>)
    requires fs.Valid()
    modifies fs`dirs
    ensures fs.Valid() && fs.files == old(fs.files)
    ensures r.Success? <==> !fs.BlockedByFile(InputsPath(root, cid, job))
    ensures r.Success? ==> r.value == Child(InputsPath(root, cid, job), filename)
    ensures r.Success? ==> fs.dirs == old(fs.dirs) + Prefixes(InputsPath(root, cid, job))
    ensures r.Failure? ==> old(fs.dirs) <= fs.dirs <= old(fs.dirs) + Prefixes(InputsPath(root, cid, job))
  {
    PrefixesGrow(CharacterPath(root, cid), ["inputs", job]);
    assert CharacterPath(root, cid) + ["inputs", job] == InputsPath(root, cid, job);
    if fs.BlockedByFile(CharacterPath(root, cid)) {
      fs.BlockedGrows(CharacterPath(root, cid), ["inputs", job]);
    }
    var character :- CharacterDir(fs, root, cid);
    var inputsDir := Child(Child(character, "inputs"), job);
    :- fs.MkDirs(inputsDir);
    r := Success(Child(inputsDir, filename));
  }

  /** `m` is the greatest of `names` in Python's string order. */
  predicate IsGreatest(m: string, names: set<string>) {
    m in names && forall n :: n in names ==> LexLe(n, m)
  }

  /** There is only one greatest name. */
  lemma GreatestIsUnique(a: string, b: string, names: set<string>)
    requires IsGreatest(a, names) && IsGreatest(b, names)
    ensures a == b
  {
    LexLeAntisymmetric(a, b);
  }

  /**
   * The latest job is decided by the names alone; no creation time enters
   * it. Of the job directories "bbb222" and "aaa111", "bbb222" is reported.
   */
  lemma LatestIsNotNewest()
    ensures IsGreatest("bbb222", {"bbb222", "aaa111"})
    ensures !IsGreatest("aaa111", {"bbb222", "aaa111"})
  {
  }

  /**
   * `latest_job(cid)`: `None` when the character has no `outputs` directory
   * or no job directory in it; otherwise the greatest job directory name.
   * It creates the character's directory first.
   */
  method LatestJob(fs: FileSystem, root: Path, cid: string) returns (r: Result<Option<string>, IoError>)
    requires fs.Valid()
    modifies fs`dirs
    ensures fs.Valid() && fs.files == old(fs.files)
    ensures !fs.BlockedByFile(CharacterPath(root, cid)) ==> fs.dirs == old(fs.dirs) + Prefixes(CharacterPath(root, cid))
    ensures r.Success? <==> !fs.BlockedByFile(CharacterPath(root, cid)) && OutputsPath(root, cid) !in fs.files
    ensures r == Success(None) <==>
      !fs.BlockedByFile(CharacterPath(root, cid)) && OutputsPath(root, cid) !in fs.files
      && (OutputsPath(root, cid) !in fs.dirs || fs.SubDirs(OutputsPath(root, cid)) == {})
    ensures r.Success? && r.value.Some? ==> IsGreatest(r.value.value, fs.SubDirs(OutputsPath(root, cid)))
  {
    var character := CharacterDir(fs, root, cid);
    if character.Failure? {
      return Failure(character.error);
    }
    var outputs := Child(character.value, "outputs");
    if !fs.Exists(outputs) {
      return Success(None);
    }
    if outputs in fs.files {
      return Failure(NotADirectory(outputs));
    }
    var best := Greatest(fs.SubDirs(outputs));
    r := Success(best);
  }

  /** `max(names)`, or `None` for no names. */
  method Greatest(names: set<string>) returns (best: Option<string>)
    ensures best.None? <==> names == {}
    ensures best.Some? ==> IsGreatest(best.value, names)
  {
    var remaining := names;
    best := None;
    while remaining != {}
      invariant remaining <= names
      invariant best.None? <==> remaining == names
      invariant best.Some? ==> IsGreatest(best.value, names - remaining)
      decreases remaining
    {
      var job :| job in remaining;
      LexLeTotal(job, job);
      if best.None? || LexLe(best.value, job) {
        if best.Some? {
          forall n | n in names - remaining ensures LexLe(n, job) {
            LexLeTransitive(n, best.value, job);
          }
        }
        best := Some(job);
      } else {
        LexLeTotal(best.value, job);
      }
      remaining := remaining - {job};
    }
  }
}
