/**
 * server/app/pipeline.py: `RiggingPipeline.run` stores the input image of a
 * job and fabricates placeholder outputs next to it, writing the metadata
 * record last. `uuid.uuid4().hex` is the `token` argument, the clock is
 * `stamp`, and the two PIL conversions (RGB texture, thumbnail preview) are
 * oracles from the stored image to the bytes they save, `None` when PIL
 * cannot decode the image.
 */
module Pipeline {
  import opened Wrappers
  import opened Text
  import opened Values
  import opened Paths
  import opened FileSystem
  import opened Storage

  datatype PipelineResult = PipelineResult(
    characterId: string,
    jobId: string,
    meshPath: Path,
    rigPath: Path,
    texturePath: Path,
    previewPath: Path)

  /** Why a run stopped: a filesystem error, or an image PIL cannot open. */
  datatype RunError = Io(error: IoError) | Undecodable(path: Path)

  /** `PipelineResult.as_response()`: six keys, each the string form of its field. */
  function AsResponse(res: PipelineResult): (r: Entries)
    ensures Keys(r) == ["character_id", "job_id", "mesh_path", "rig_path", "texture_path", "preview_path"]
    ensures UniqueKeys(r)
    ensures Get(r, "character_id") == Some(VStr(res.characterId))
    ensures Get(r, "job_id") == Some(VStr(res.jobId))
    ensures Get(r, "mesh_path") == Some(VStr(Str(res.meshPath)))
    ensures Get(r, "rig_path") == Some(VStr(Str(res.rigPath)))
    ensures Get(r, "texture_path") == Some(VStr(Str(res.texturePath)))
    ensures Get(r, "preview_path") == Some(VStr(Str(res.previewPath)))
  {
    var r := [ ("character_id", VStr(res.characterId)),
      ("job_id", VStr(res.jobId)),
      ("mesh_path", VStr(Str(res.meshPath))),
      ("rig_path", VStr(Str(res.rigPath))),
      ("texture_path", VStr(Str(res.texturePath))),
      ("preview_path", VStr(Str(res.previewPath))) ];
    assert UniqueKeys(r);
    assert Keys(r) == ["character_id", "job_id", "mesh_path", "rig_path", "texture_path", "preview_path"];
    GetAt(r, 0); GetAt(r, 1); GetAt(r, 2); GetAt(r, 3); GetAt(r, 4); GetAt(r, 5);
    r
  }

  predicate IsLowerHex(c: char) {
    ('0' <= c <= '9') || ('a' <= c <= 'f')
  }

  /** What `uuid4().hex` always is: 32 lower-case hexadecimal digits. */
  predicate IsUuidHex(token: string) {
    |token| == 32 && forall i :: 0 <= i < |token| ==> IsLowerHex(token[i])
  }

  /** `uuid.uuid4().hex[:12]`: twelve lower-case hexadecimal digits. */
  function JobId(token: string): (j: string)
    requires IsUuidHex(token)
    ensures |j| == 12
    ensures forall i :: 0 <= i < |j| ==> IsLowerHex(j[i])
    ensures StartsWith(token, j)
  {
    token[..12]
  }

  /** Where `_store_input_image` copies the image: `inputs/<job>/<name>`. */
  function InputTarget(root: Path, cid: string, job: string, imagePath: Path): Path {
    Child(InputsPath(root, cid, job), Name(imagePath))
  }

  /** The artifact file `name` in the job's output directory. */
  function Artifact(root: Path, cid: string, job: string, name: string): Path {
    Child(JobPath(root, cid, job), name)
  }

  /** The result a run returns, with the four fixed artifact names. */
  function ResultFor(root: Path, cid: string, job: string): PipelineResult {
    PipelineResult(cid, job,
      Artifact(root, cid, job, "model.obj"),
      Artifact(root, cid, job, "rig.json"),
      Artifact(root, cid, job, "albedo.png"),
      Artifact(root, cid, job, "preview.png"))
  }

  /** The files a complete run writes, in the order it writes them. */
  function PlannedWrites(root: Path, cid: string, job: string, imagePath: Path): seq<Event> {
    [Wrote(InputTarget(root, cid, job, imagePath))] + ArtifactWrites(JobPath(root, cid, job)) + [Wrote(MetadataPath(root, cid, job))]
  }

  /** The four artifact writes of a run, in order, into the job directory `jobDir`. */
  function ArtifactWrites(jobDir: Path): seq<Event> {
    PlaceholderWrites(jobDir) + ImageWrites(jobDir)
  }

  /** The four files a run writes into the job directory `jobDir`. */
  function ArtifactPaths(jobDir: Path): set<Path> {
    {Child(jobDir, "model.obj"), Child(jobDir, "rig.json"), Child(jobDir, "albedo.png"), Child(jobDir, "preview.png")}
  }

  /** The directories a run may make: the inputs and job directories with their ancestors. */
  function RunDirs(root: Path, cid: string, job: string): set<Path> {
    Prefixes(InputsPath(root, cid, job)) + Prefixes(JobPath(root, cid, job))
  }

  /** The files a run writes, whether it gets through all of them or not. */
  function RunPaths(root: Path, cid: string, job: string, imagePath: Path): set<Path> {
    {InputTarget(root, cid, job, imagePath)} + ArtifactPaths(JobPath(root, cid, job)) + {MetadataPath(root, cid, job)}
  }

  /** Every file a run writes lies five levels below the data root. */
  lemma RunPathsDepth(root: Path, cid: string, job: string, imagePath: Path)
    ensures forall p :: p in RunPaths(root, cid, job, imagePath) ==> |p| == |root| + 5
  {
    assert |InputTarget(root, cid, job, imagePath)| == |root| + 5;
    assert |MetadataPath(root, cid, job)| == |root| + 5;
    assert |JobPath(root, cid, job)| == |root| + 4;
  }

  /** `RunPaths` are exactly the paths of the planned writes. */
  lemma RunPathsArePlanned(root: Path, cid: string, job: string, imagePath: Path)
    ensures RunPaths(root, cid, job, imagePath) == set e | e in PlannedWrites(root, cid, job, imagePath) :: e.path
  {
    var jobDir := JobPath(root, cid, job);
    var first := [Wrote(InputTarget(root, cid, job, imagePath))];
    var last := [Wrote(MetadataPath(root, cid, job))];
    var placeholders := PlaceholderWrites(jobDir);
    var images := ImageWrites(jobDir);
    PathsOfAppend(placeholders, images);
    PathsOfTwo(placeholders[0], placeholders[1]);
    PathsOfTwo(images[0], images[1]);
    PathsOfAppend(first, ArtifactWrites(jobDir));
    PathsOfAppend(first + ArtifactWrites(jobDir), last);
    PathsOfOne(first[0]);
    PathsOfOne(last[0]);
  }

  /** The path of a single write. */
  lemma PathsOfOne(a: Event)
    ensures (set e | e in [a] :: e.path) == {a.path}
  {
  }

  /** The paths of two writes. */
  lemma PathsOfTwo(a: Event, b: Event)
    ensures (set e | e in [a, b] :: e.path) == {a.path, b.path}
  {
  }

  /** The paths of a concatenation of writes are those of both parts. */
  lemma PathsOfAppend(a: seq<Event>, b: seq<Event>)
    ensures (set e | e in a + b :: e.path) == (set e | e in a :: e.path) + (set e | e in b :: e.path)
  {
  }

  /** The mesh write, then the rig write. */
  function PlaceholderWrites(jobDir: Path): seq<Event> {
    [Wrote(Child(jobDir, "model.obj")), Wrote(Child(jobDir, "rig.json"))]
  }

  /** The texture write, then the preview write. */
  function ImageWrites(jobDir: Path): seq<Event> {
    [Wrote(Child(jobDir, "albedo.png")), Wrote(Child(jobDir, "preview.png"))]
  }

  /** Going from `before` to `after` did an initial part of `plan`, in its order. */
  ghost predicate DoneInOrder(before: seq<Event>, after: seq<Event>, plan: seq<Event>) {
    exists k | 0 <= k <= |plan| :: after == before + plan[..k]
  }

  /** Doing `a`, then the first `j` steps of `b`, does the first `|a| + j` steps of `a + b`. */
  lemma ExtendDone(before: seq<Event>, mid: seq<Event>, after: seq<Event>, a: seq<Event>, b: seq<Event>, j: nat)
    requires j <= |b| && mid == before + a && after == mid + b[..j]
    ensures after == before + (a + b)[..|a| + j]
    ensures j == |b| ==> after == before + (a + b)
    ensures DoneInOrder(before, after, a + b)
  {
    assert (a + b)[..|a| + j] == a + b[..j];
  }

  /** An initial part of `a` is an initial part of `a + b`. */
  lemma DoneWithin(before: seq<Event>, after: seq<Event>, a: seq<Event>, b: seq<Event>)
    requires DoneInOrder(before, after, a)
    ensures DoneInOrder(before, after, a + b)
  {
    var k :| 0 <= k <= |a| && after == before + a[..k];
    assert (a + b)[..k] == a[..k];
  }

  /** The `artifacts` part of the metadata record. */
  function ArtifactRecord(res: PipelineResult): Entries {
    [ ("mesh", VStr(Str(res.meshPath))),
      ("rig", VStr(Str(res.rigPath))),
      ("texture", VStr(Str(res.texturePath))),
      ("preview", VStr(Str(res.previewPath))) ]
  }

  /** The record `run` saves as `metadata.json`. */
  function MetadataRecord(res: PipelineResult, stamp: string): Entries {
    [ ("character_id", VStr(res.characterId)),
      ("job_id", VStr(res.jobId)),
      ("created_at", VStr(stamp)),
      ("artifacts", VDict(ArtifactRecord(res))) ]
  }

  /** The metadata record and the response name the same character and job. */
  lemma MetadataAgreesWithResponse(res: PipelineResult, stamp: string)
    ensures var m := MetadataRecord(res, stamp);
      && UniqueKeys(m)
      && Get(m, "character_id") == Get(AsResponse(res), "character_id")
      && Get(m, "job_id") == Get(AsResponse(res), "job_id")
      && Get(m, "created_at") == Some(VStr(stamp))
      && Get(m, "artifacts") == Some(VDict(ArtifactRecord(res)))
  {
    var m := MetadataRecord(res, stamp);
    GetAt(m, 0); GetAt(m, 1); GetAt(m, 2); GetAt(m, 3);
  }

  /** Each artifact string of the metadata record is the response's string for that path. */
  lemma ArtifactsAgreeWithResponse(res: PipelineResult)
    ensures var a := ArtifactRecord(res);
      && UniqueKeys(a)
      && Get(a, "mesh") == Get(AsResponse(res), "mesh_path")
      && Get(a, "rig") == Get(AsResponse(res), "rig_path")
      && Get(a, "texture") == Get(AsResponse(res), "texture_path")
      && Get(a, "preview") == Get(AsResponse(res), "preview_path")
  {
    var a := ArtifactRecord(res);
    GetAt(a, 0); GetAt(a, 1); GetAt(a, 2); GetAt(a, 3);
  }

  /** The four artifacts lie side by side in the job directory, under four different names. */
  lemma ArtifactsShareJobDir(root: Path, cid: string, job: string)
    ensures var res := ResultFor(root, cid, job);
      && Parent(res.meshPath) == Parent(res.rigPath) == Parent(res.texturePath) == Parent(res.previewPath) == JobPath(root, cid, job)
      && Parent(MetadataPath(root, cid, job)) == JobPath(root, cid, job)
      && |{res.meshPath, res.rigPath, res.texturePath, res.previewPath, MetadataPath(root, cid, job)}| == 5
  {
    var res := ResultFor(root, cid, job);
    var n := |JobPath(root, cid, job)|;
    assert res.meshPath[n] == "model.obj" && res.rigPath[n] == "rig.json";
    assert res.texturePath[n] == "albedo.png" && res.previewPath[n] == "preview.png";
    assert MetadataPath(root, cid, job)[n] == "metadata.json";
  }

  /** The three header lines of the placeholder mesh. */
  function MeshHeader(): seq<string> {
    ["# Simple quad mesh", "mtllib none", "usemtl default"]
  }

  /** The body lines of the placeholder mesh: a quad as two triangles. */
  function MeshLines(): seq<string> {
    [ "v -1.0 0.0 -1.0", "v 1.0 0.0 -1.0", "v 1.0 0.0 1.0", "v -1.0 0.0 1.0",
      "vt 0.0 0.0", "vt 1.0 0.0", "vt 1.0 1.0", "vt 0.0 1.0",
      "vn 0.0 1.0 0.0",
      "f 1/1/1 2/2/1 3/3/1", "f 1/1/1 3/3/1 4/4/1" ]
  }

  /** The text `_generate_placeholder_mesh` writes. */
  function MeshText(): string {
    "# Simple quad mesh\nmtllib none\nusemtl default\n" + Join(MeshLines(), "\n")
  }

  /**
   * The mesh text is fourteen lines, header first, with no trailing newline:
   * splitting it at newlines gives back exactly the header and body lines.
   */
  lemma MeshLinesRoundTrip()
    ensures Split(MeshText(), '\n') == MeshHeader() + MeshLines()
  {
    MeshHeaderText();
    MeshPiecesOneLine();
    JoinAfterLines(MeshHeader(), MeshLines(), "\n");
    SplitJoin(MeshHeader() + MeshLines(), '\n');
  }

  /** The header literal is the three header lines, each ended by a newline. */
  lemma MeshHeaderText()
    ensures "# Simple quad mesh\nmtllib none\nusemtl default\n" == Terminated(MeshHeader(), "\n")
  {
    var h := MeshHeader();
    assert Terminated(h, "\n") == h[0] + "\n" + (h[1] + "\n" + (h[2] + "\n" + []));
  }

  /** No header or body line of the mesh holds a newline. */
  lemma MeshPiecesOneLine()
    ensures forall i :: 0 <= i < |MeshHeader() + MeshLines()| ==> '\n' !in (MeshHeader() + MeshLines())[i]
  {
    var h := MeshHeader();
    var l := MeshLines();
    assert '\n' !in h[0] && '\n' !in h[1] && '\n' !in h[2];
    VertexLinesOneLine();
    FaceLinesOneLine();
    forall i | 0 <= i < |h + l| ensures '\n' !in (h + l)[i] {
      if i < 3 { assert (h + l)[i] == h[i]; } else { assert (h + l)[i] == l[i - 3]; }
    }
  }

  lemma VertexLinesOneLine()
    ensures forall i :: 0 <= i < 4 ==> '\n' !in MeshLines()[i]
  {
    var l := MeshLines();
    assert '\n' !in l[0] && '\n' !in l[1] && '\n' !in l[2] && '\n' !in l[3];
  }

  lemma FaceLinesOneLine()
    ensures forall i :: 4 <= i < 11 ==> '\n' !in MeshLines()[i]
  {
    var l := MeshLines();
    assert '\n' !in l[4] && '\n' !in l[5] && '\n' !in l[6] && '\n' !in l[7];
    assert '\n' !in l[8] && '\n' !in l[9] && '\n' !in l[10];
  }

  /** A bone of the placeholder skeleton. */
  function Bone(name: string, parent: Value, y: int): (b: Value)
    ensures b.VDict? && UniqueKeys(b.entries)
    ensures Get(b.entries, "name") == Some(VStr(name)) && Get(b.entries, "parent") == Some(parent)
  {
    var entries := [("name", VStr(name)), ("parent", parent), ("translation", VList([VInt(0), VInt(y), VInt(0)]))];
    GetAt(entries, 0);
    GetAt(entries, 1);
    VDict(entries)
  }

  function Skeleton(): seq<Value> {
    [Bone("root", VNone, 0), Bone("spine", VStr("root"), 1), Bone("head", VStr("spine"), 1)]
  }

  /** The document `_generate_placeholder_rig` serialises. */
  function RigDoc(): Value {
    VDict([("skeleton", VList(Skeleton())), ("metadata", VDict([("source", VStr("placeholder"))]))])
  }

  /**
   * The placeholder rig is the chain root, spine, head: the first bone has
   * no parent and each other bone's parent is the bone before it.
   */
  lemma RigIsChain()
    ensures Get(RigDoc().entries, "skeleton") == Some(VList(Skeleton()))
    ensures |Skeleton()| == 3
    ensures forall i :: 0 <= i < 3 ==> Skeleton()[i].VDict?
    ensures Get(Skeleton()[0].entries, "name") == Some(VStr("root"))
    ensures Get(Skeleton()[1].entries, "name") == Some(VStr("spine"))
    ensures Get(Skeleton()[2].entries, "name") == Some(VStr("head"))
    ensures Get(Skeleton()[0].entries, "parent") == Some(VNone)
    ensures forall i :: 1 <= i < 3 ==> Get(Skeleton()[i].entries, "parent") == Get(Skeleton()[i - 1].entries, "name")
  {
    var sk := Skeleton();
    assert sk[0] == Bone("root", VNone, 0) && sk[1] == Bone("spine", VStr("root"), 1) && sk[2] == Bone("head", VStr("spine"), 1);
  }

  /** No directory stands where a run puts one of its five output files. */
  predicate OutputsFree(dirs: set<Path>, root: Path, cid: string, job: string) {
    ArtifactsFree(dirs, JobPath(root, cid, job)) && MetadataPath(root, cid, job) !in dirs
  }

  /** No directory stands where the four artifacts go in `jobDir`. */
  predicate ArtifactsFree(dirs: set<Path>, jobDir: Path) {
    && Child(jobDir, "model.obj") !in dirs && Child(jobDir, "rig.json") !in dirs
    && Child(jobDir, "albedo.png") !in dirs && Child(jobDir, "preview.png") !in dirs
  }

  /**
   * The directories a run creates, `inputs/<job>` and `outputs/<job>` with
   * their ancestors, are all shorter than the output files, so creating them
   * never puts a directory where an output goes.
   */
  lemma OutputsFreeAfterPrepare(dirs: set<Path>, root: Path, cid: string, job: string)
    ensures OutputsFree(dirs + RunDirs(root, cid, job), root, cid, job)
      == OutputsFree(dirs, root, cid, job)
  {
  }

  /**
   * Everything a run needs: the image exists and PIL can read it, and no
   * file stands where the run puts a directory, and no directory where it
   * puts a file.
   */
  predicate Runnable(fs: FileSystem, root: Path, cid: string, job: string, imagePath: Path,
                     texture: Content -> Option<seq<byte>>, preview: Content -> Option<seq<byte>>)
    reads fs
  {
    RunnableIn(fs.dirs, fs.files, root, cid, job, imagePath, texture, preview)
  }

  /** `Runnable` for the directories `dirs` and the files `files`. */
  predicate RunnableIn(dirs: set<Path>, files: map<Path, Content>, root: Path, cid: string, job: string, imagePath: Path,
                       texture: Content -> Option<seq<byte>>, preview: Content -> Option<seq<byte>>)
  {
    && imagePath in files
    && texture(files[imagePath]).Some? && preview(files[imagePath]).Some?
    && !Blocked(files, InputsPath(root, cid, job)) && !Blocked(files, JobPath(root, cid, job))
    && InputTarget(root, cid, job, imagePath) !in dirs
    && OutputsFree(dirs, root, cid, job)
  }

  /** No file the run writes begins the job directory, so none can block it. */
  lemma WritesDoNotBlockJobDir(root: Path, cid: string, job: string, imagePath: Path)
    ensures forall e :: e in PlannedWrites(root, cid, job, imagePath) ==> !Begins(e.path, JobPath(root, cid, job))
    ensures forall e :: e in PlannedWrites(root, cid, job, imagePath) ==> e.path !in Prefixes(JobPath(root, cid, job))
    ensures forall e :: e in PlannedWrites(root, cid, job, imagePath) ==> e.path !in Prefixes(InputsPath(root, cid, job))
  {
    var n := |JobPath(root, cid, job)|;
    assert |InputsPath(root, cid, job)| == n;
    assert forall e :: e in PlannedWrites(root, cid, job, imagePath) ==> |e.path| == n + 1;
  }

  /**
   * `RiggingPipeline`. Its two placeholder outputs, the mesh text and the rig
   * document, are fixed when the pipeline is made.
   */
  class RiggingPipeline {
    const mesh: string
    const rig: Value

    constructor ()
      ensures mesh == MeshText() && rig == RigDoc()
    {
      mesh := MeshText();
      rig := RigDoc();
    }

    /**
     * The files after the last five writes of a run, the mesh and rig being
     * this pipeline's.
     */
    function FinishFiles(files: map<Path, Content>, root: Path, cid: string, job: string,
                         stamp: string, texture: seq<byte>, preview: seq<byte>): map<Path, Content>
    {
      ArtifactFiles(files, JobPath(root, cid, job), texture, preview)
        [MetadataPath(root, cid, job) := JsonFile(VDict(MetadataRecord(ResultFor(root, cid, job), stamp)))]
    }

    /** The files after the four artifact writes into `jobDir`. */
    function ArtifactFiles(files: map<Path, Content>, jobDir: Path, texture: seq<byte>, preview: seq<byte>): map<Path, Content> {
      files[Child(jobDir, "model.obj") := TextFile(mesh)]
           [Child(jobDir, "rig.json") := JsonFile(rig)]
           [Child(jobDir, "albedo.png") := BytesFile(texture)]
           [Child(jobDir, "preview.png") := BytesFile(preview)]
    }

    /** The files after a complete run, from the files before it. */
    function RunFiles(files: map<Path, Content>, root: Path, cid: string, job: string, imagePath: Path,
                      stamp: string, image: Content, texture: seq<byte>, preview: seq<byte>): map<Path, Content>
    {
      FinishFiles(files[InputTarget(root, cid, job, imagePath) := image], root, cid, job, stamp, texture, preview)
    }

    /**
     * `_store_input_image`: creates the job's input directory, then copies the
     * image's bytes unchanged to `inputs/<job>/<name>`.
     */
    method StoreInputImage(fs: FileSystem, root: Path, cid: string, job: string, imagePath: Path)
      returns (r: Result<Path, IoError>)
      requires fs.Valid()
      modifies fs
      ensures fs.Valid()
      ensures r.Success? <==>
        !old(fs.BlockedByFile(InputsPath(root, cid, job))) && imagePath in old(fs.files)
        && InputTarget(root, cid, job, imagePath) !in old(fs.dirs)
      ensures r.Success? ==> r.value == InputTarget(root, cid, job, imagePath)
      ensures r.Success? ==> fs.files == old(fs.files)[r.value := old(fs.files)[imagePath]]
      ensures r.Success? ==> fs.log == old(fs.log) + [Wrote(r.value)]
      ensures r.Failure? ==> fs.files == old(fs.files) && fs.log == old(fs.log)
      ensures !old(fs.BlockedByFile(InputsPath(root, cid, job))) ==> fs.dirs == old(fs.dirs) + Prefixes(InputsPath(root, cid, job))
      ensures old(fs.dirs) <= fs.dirs <= old(fs.dirs) + Prefixes(InputsPath(root, cid, job))
    {
      var target :- RegisterInputImage(fs, root, cid, job, Name(imagePath));
      var data :- fs.Read(imagePath);
      var inputs := InputsPath(root, cid, job);
      assert target !in Prefixes(inputs);
      assert Parent(target) == inputs;
      assert inputs[..|inputs|] == inputs;
      var written := fs.WriteFile(target, data);
      if written.Fail? {
        return Failure(written.error);
      }
      r := Success(target);
    }

    /**
     * `RiggingPipeline.run(cid, image_path)`: the job id is the first twelve
     * digits of the token; the image is copied into `inputs/<job>`, then the
     * mesh, the rig, the texture and the preview are written into
     * `outputs/<job>`, and `metadata.json` last. The writes done are always an
     * initial part of that order; the run succeeds exactly when it can, and
     * then every artifact and the metadata record exist with the returned
     * paths.
     */
    method Run(fs: FileSystem, root: Path, cid: string, imagePath: Path, token: string, stamp: string,
               texture: Content -> Option<seq<byte>>, preview: Content -> Option<seq<byte>>)
      returns (r: Result<PipelineResult, RunError>)
      requires fs.Valid() && IsUuidHex(token)
      modifies fs
      ensures fs.Valid()
      ensures DoneInOrder(old(fs.log), fs.log, PlannedWrites(root, cid, JobId(token), imagePath))
      ensures r.Success? <==> RunnableIn(old(fs.dirs), old(fs.files), root, cid, JobId(token), imagePath, texture, preview)
      ensures r.Success? ==> r.value == ResultFor(root, cid, JobId(token))
      ensures r.Success? ==> fs.log == old(fs.log) + PlannedWrites(root, cid, JobId(token), imagePath)
      ensures r.Success? ==> fs.files == RunFiles(old(fs.files), root, cid, JobId(token), imagePath, stamp,
        old(fs.files[imagePath]), texture(old(fs.files[imagePath])).value, preview(old(fs.files[imagePath])).value)
      ensures r.Success? ==> fs.dirs == old(fs.dirs) + RunDirs(root, cid, JobId(token))
      ensures old(fs.dirs) <= fs.dirs <= old(fs.dirs) + RunDirs(root, cid, JobId(token))
      ensures SameOutside(old(fs.files), fs.files, RunPaths(root, cid, JobId(token), imagePath))
    {
      var job := JobId(token);
      ghost var plan := PlannedWrites(root, cid, job, imagePath);
      ghost var log0 := fs.log;
      ghost var dirs0 := fs.dirs;
      ghost var files0 := fs.files;
      var prepared := PrepareJob(fs, root, cid, job, imagePath);
      if prepared.Failure? {
        assert [] + plan == plan;
        if fs.log == log0 {
          ExtendDone(log0, log0, fs.log, [], plan, 0);
        } else {
          ExtendDone(log0, log0, fs.log, [], plan, 1);
        }
        return Failure(Io(prepared.error));
      }
      r := CompleteRun(fs, root, cid, imagePath, token, stamp, texture, preview, dirs0, files0, log0);
    }

    /**
     * A run once its input is copied and its directories are made: the
     * artifacts and the metadata follow, and the whole run has the effects
     * `Run` promises, measured from the state `dirs0`, `files0`, `log0`
     * before the copy.
     */
    method CompleteRun(fs: FileSystem, root: Path, cid: string, imagePath: Path, token: string, stamp: string,
                       texture: Content -> Option<seq<byte>>, preview: Content -> Option<seq<byte>>,
                       ghost dirs0: set<Path>, ghost files0: map<Path, Content>, ghost log0: seq<Event>)
      returns (r: Result<PipelineResult, RunError>)
      requires fs.Valid() && IsUuidHex(token)
      requires !Blocked(files0, InputsPath(root, cid, JobId(token))) && !Blocked(files0, JobPath(root, cid, JobId(token)))
      requires imagePath in files0 && InputTarget(root, cid, JobId(token), imagePath) !in dirs0
      requires fs.files == files0[InputTarget(root, cid, JobId(token), imagePath) := files0[imagePath]]
      requires fs.log == log0 + [Wrote(InputTarget(root, cid, JobId(token), imagePath))]
      requires fs.dirs == dirs0 + RunDirs(root, cid, JobId(token))
      requires !fs.BlockedByFile(JobPath(root, cid, JobId(token)))
      modifies fs
      ensures fs.Valid()
      ensures DoneInOrder(log0, fs.log, PlannedWrites(root, cid, JobId(token), imagePath))
      ensures r.Success? <==> RunnableIn(dirs0, files0, root, cid, JobId(token), imagePath, texture, preview)
      ensures r.Success? ==> r.value == ResultFor(root, cid, JobId(token))
      ensures r.Success? ==> fs.log == log0 + PlannedWrites(root, cid, JobId(token), imagePath)
      ensures r.Success? ==> fs.files == RunFiles(files0, root, cid, JobId(token), imagePath, stamp,
        files0[imagePath], texture(files0[imagePath]).value, preview(files0[imagePath]).value)
      ensures fs.dirs == dirs0 + RunDirs(root, cid, JobId(token))
      ensures SameOutside(files0, fs.files, RunPaths(root, cid, JobId(token), imagePath))
    {
      var job := JobId(token);
      ghost var first := [Wrote(InputTarget(root, cid, job, imagePath))];
      ghost var rest := ArtifactWrites(JobPath(root, cid, job)) + [Wrote(MetadataPath(root, cid, job))];
      assert PlannedWrites(root, cid, job, imagePath) == first + rest;
      ghost var log1 := fs.log;
      ghost var files1 := fs.files;
      OutputsFreeAfterPrepare(dirs0, root, cid, job);
      r := FinishJob(fs, root, cid, job, InputTarget(root, cid, job, imagePath), stamp, texture, preview);
      SameOutsideTrans(files0, files1, fs.files, {InputTarget(root, cid, job, imagePath)},
        ArtifactPaths(JobPath(root, cid, job)) + {MetadataPath(root, cid, job)});
      ghost var j :| 0 <= j <= |rest| && fs.log == log1 + rest[..j];
      ExtendDone(log0, log1, fs.log, first, rest, j);
    }

    /**
     * The steps of a run after the input copy: the four artifacts into the
     * existing job directory, the pipeline's mesh text and rig
     * document, then `save_metadata`. The directories stay as they are.
     */
    method FinishJob(fs: FileSystem, root: Path, cid: string, job: string, recorded: Path, stamp: string,
                     texture: Content -> Option<seq<byte>>, preview: Content -> Option<seq<byte>>)
      returns (r: Result<PipelineResult, RunError>)
      requires fs.Valid() && recorded in fs.files
      requires Prefixes(JobPath(root, cid, job)) <= fs.dirs && !fs.BlockedByFile(JobPath(root, cid, job))
      modifies fs
      ensures fs.Valid() && fs.dirs == old(fs.dirs)
      ensures DoneInOrder(old(fs.log), fs.log, ArtifactWrites(JobPath(root, cid, job)) + [Wrote(MetadataPath(root, cid, job))])
      ensures r.Success? <==>
        OutputsFree(fs.dirs, root, cid, job)
        && texture(old(fs.files[recorded])).Some? && preview(old(fs.files[recorded])).Some?
      ensures r.Success? ==> r.value == ResultFor(root, cid, job)
      ensures r.Success? ==> fs.log == old(fs.log) + ArtifactWrites(JobPath(root, cid, job)) + [Wrote(MetadataPath(root, cid, job))]
      ensures r.Success? ==> fs.files == FinishFiles(old(fs.files), root, cid, job, stamp,
        texture(old(fs.files[recorded])).value, preview(old(fs.files[recorded])).value)
      ensures SameOutside(old(fs.files), fs.files, ArtifactPaths(JobPath(root, cid, job)) + {MetadataPath(root, cid, job)})
    {
      var jobDir := JobPath(root, cid, job);
      assert jobDir[..|jobDir|] == jobDir;
      ghost var log0 := fs.log;
      ghost var middle := ArtifactWrites(jobDir);
      ghost var last := [Wrote(MetadataPath(root, cid, job))];
      var artifacts := WriteArtifacts(fs, jobDir, recorded, fs.files[recorded], texture, preview);
      ghost var files1 := fs.files;
      var result := ResultFor(root, cid, job);
      SameOutsideThenWrite(old(fs.files), files1, ArtifactPaths(jobDir), MetadataPath(root, cid, job),
        JsonFile(VDict(MetadataRecord(result, stamp))));
      if artifacts.Failure? {
        DoneWithin(log0, fs.log, middle, last);
        return Failure(artifacts.error);
      }
      ghost var log1 := fs.log;
      assert !fs.BlockedByFile(jobDir);
      ghost var dirs1 := fs.dirs;
      var saved := SaveMetadata(fs, root, cid, job, VDict(MetadataRecord(result, stamp)));
      assert fs.dirs == dirs1;
      if saved.Fail? {
        assert fs.log == log1 + last[..0];
        ExtendDone(log0, log1, fs.log, middle, last, 0);
        return Failure(Io(saved.error));
      }
      assert last[..1] == last;
      ExtendDone(log0, log1, fs.log, middle, last, 1);
      r := Success(result);
    }

    /**
     * The first two steps of a run: `_store_input_image`, then `job_dir`.
     * They succeed together exactly when the image exists and nothing is in
     * the way of the two directories and the copy.
     */
    method PrepareJob(fs: FileSystem, root: Path, cid: string, job: string, imagePath: Path)
      returns (r: Result<Path, IoError>)
      requires fs.Valid()
      modifies fs
      ensures fs.Valid()
      ensures fs.log == old(fs.log) || fs.log == old(fs.log) + [Wrote(InputTarget(root, cid, job, imagePath))]
      ensures r.Success? <==>
        && !Blocked(old(fs.files), InputsPath(root, cid, job)) && !Blocked(old(fs.files), JobPath(root, cid, job))
        && imagePath in old(fs.files) && InputTarget(root, cid, job, imagePath) !in old(fs.dirs)
      ensures r.Success? ==> r.value == InputTarget(root, cid, job, imagePath)
      ensures r.Success? ==> fs.files == old(fs.files)[r.value := old(fs.files)[imagePath]]
      ensures r.Success? ==> fs.log == old(fs.log) + [Wrote(r.value)]
      ensures r.Success? ==> fs.dirs == old(fs.dirs) + RunDirs(root, cid, job)
      ensures r.Success? ==> !fs.BlockedByFile(JobPath(root, cid, job))
      ensures old(fs.dirs) <= fs.dirs <= old(fs.dirs) + RunDirs(root, cid, job)
      ensures SameOutside(old(fs.files), fs.files, {InputTarget(root, cid, job, imagePath)})
    {
      WritesDoNotBlockJobDir(root, cid, job, imagePath);
      var recorded :- StoreInputImage(fs, root, cid, job, imagePath);
      BlockedAfterWrite(old(fs.files), recorded, old(fs.files[imagePath]), JobPath(root, cid, job));
      var outputs :- JobDir(fs, root, cid, job);
      r := Success(recorded);
    }

    /**
     * `_generate_placeholder_mesh`, `_generate_placeholder_rig`,
     * `_generate_texture` and `_generate_preview`, one after the other: the
     * pipeline's mesh text and rig document, then the two conversions of the
     * stored input `recorded` whose content is `image`.
     */
    method WriteArtifacts(fs: FileSystem, jobDir: Path, recorded: Path, image: Content,
                          texture: Content -> Option<seq<byte>>, preview: Content -> Option<seq<byte>>)
      returns (r: Result<(), RunError>)
      requires fs.Valid() && jobDir in fs.dirs
      modifies fs`files, fs`log
      ensures fs.Valid()
      ensures DoneInOrder(old(fs.log), fs.log, ArtifactWrites(jobDir))
      ensures Blocked(fs.files, jobDir) == Blocked(old(fs.files), jobDir)
      ensures r.Success? <==> ArtifactsFree(fs.dirs, jobDir) && texture(image).Some? && preview(image).Some?
      ensures r.Success? ==> fs.log == old(fs.log) + ArtifactWrites(jobDir)
      ensures r.Success? ==> fs.files == ArtifactFiles(old(fs.files), jobDir, texture(image).value, preview(image).value)
      ensures SameOutside(old(fs.files), fs.files, ArtifactPaths(jobDir))
    {
      ghost var log0 := fs.log;
      var placed := WritePlaceholders(fs, jobDir);
      if placed.Fail? {
        DoneWithin(log0, fs.log, PlaceholderWrites(jobDir), ImageWrites(jobDir));
        return Failure(Io(placed.error));
      }
      ghost var log1 := fs.log;
      r := WriteImages(fs, jobDir, recorded, image, texture, preview);
      ghost var j :| 0 <= j <= 2 && fs.log == log1 + ImageWrites(jobDir)[..j];
      ExtendDone(log0, log1, fs.log, PlaceholderWrites(jobDir), ImageWrites(jobDir), j);
    }

    /** `_generate_placeholder_mesh`, then `_generate_placeholder_rig`, into `jobDir`. */
    method WritePlaceholders(fs: FileSystem, jobDir: Path) returns (r: Outcome<IoError>)
      requires fs.Valid() && jobDir in fs.dirs
      modifies fs`files, fs`log
      ensures fs.Valid()
      ensures DoneInOrder(old(fs.log), fs.log, PlaceholderWrites(jobDir))
      ensures Blocked(fs.files, jobDir) == Blocked(old(fs.files), jobDir)
      ensures r.Pass? <==> Child(jobDir, "model.obj") !in fs.dirs && Child(jobDir, "rig.json") !in fs.dirs
      ensures r.Pass? ==> fs.log == old(fs.log) + PlaceholderWrites(jobDir)
      ensures r.Pass? ==> fs.files == old(fs.files)[Child(jobDir, "model.obj") := TextFile(mesh)][Child(jobDir, "rig.json") := JsonFile(rig)]
      ensures SameOutside(old(fs.files), fs.files, {Child(jobDir, "model.obj"), Child(jobDir, "rig.json")})
    {
      ghost var plan := PlaceholderWrites(jobDir);
      var meshPath := Child(jobDir, "model.obj");
      var rigPath := Child(jobDir, "rig.json");
      assert Parent(meshPath) == Parent(rigPath) == jobDir;
      BlockedAfterWrite(fs.files, meshPath, TextFile(mesh), jobDir);
      r := fs.WriteFile(meshPath, TextFile(mesh));
      if r.Fail? {
        assert fs.log == old(fs.log) + plan[..0];
        return;
      }
      assert fs.log == old(fs.log) + plan[..1];
      BlockedAfterWrite(fs.files, rigPath, JsonFile(rig), jobDir);
      r := fs.WriteFile(rigPath, JsonFile(rig));
      assert fs.log == old(fs.log) + plan[..if r.Pass? then 2 else 1];
    }

    /**
     * `_generate_texture`, then `_generate_preview`: the two conversions of
     * the stored input `recorded`, whose content is `image`, into `jobDir`.
     */
    method WriteImages(fs: FileSystem, jobDir: Path, recorded: Path, image: Content,
                       texture: Content -> Option<seq<byte>>, preview: Content -> Option<seq<byte>>)
      returns (r: Result<(), RunError>)
      requires fs.Valid() && jobDir in fs.dirs
      modifies fs`files, fs`log
      ensures fs.Valid()
      ensures DoneInOrder(old(fs.log), fs.log, ImageWrites(jobDir))
      ensures Blocked(fs.files, jobDir) == Blocked(old(fs.files), jobDir)
      ensures r.Success? <==>
        && Child(jobDir, "albedo.png") !in fs.dirs && Child(jobDir, "preview.png") !in fs.dirs
        && texture(image).Some? && preview(image).Some?
      ensures r.Success? ==> fs.log == old(fs.log) + ImageWrites(jobDir)
      ensures r.Success? ==> fs.files == old(fs.files)
        [Child(jobDir, "albedo.png") := BytesFile(texture(image).value)]
        [Child(jobDir, "preview.png") := BytesFile(preview(image).value)]
      ensures SameOutside(old(fs.files), fs.files, {Child(jobDir, "albedo.png"), Child(jobDir, "preview.png")})
    {
      ghost var plan := ImageWrites(jobDir);
      var texturePath := Child(jobDir, "albedo.png");
      var previewPath := Child(jobDir, "preview.png");
      assert Parent(texturePath) == Parent(previewPath) == jobDir;
      var rgb := texture(image);
      if rgb.None? {
        assert fs.log == old(fs.log) + plan[..0];
        return Failure(Undecodable(recorded));
      }
      BlockedAfterWrite(fs.files, texturePath, BytesFile(rgb.value), jobDir);
      var written := fs.WriteFile(texturePath, BytesFile(rgb.value));
      if written.Fail? {
        assert fs.log == old(fs.log) + plan[..0];
        return Failure(Io(written.error));
      }
      assert fs.log == old(fs.log) + plan[..1];
      var thumbnail := preview(image);
      if thumbnail.None? {
        return Failure(Undecodable(recorded));
      }
      BlockedAfterWrite(fs.files, previewPath, BytesFile(thumbnail.value), jobDir);
      written := fs.WriteFile(previewPath, BytesFile(thumbnail.value));
      if written.Fail? {
        return Failure(Io(written.error));
      }
      assert fs.log == old(fs.log) + plan[..2];
      r := Success(());
    }
  }
}
