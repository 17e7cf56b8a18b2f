# DrawingSpinUp rigging service, modelled in Dafny

This project models the core of the DrawingSpinUp rigging service and states
what it does in verified contracts. The core has four server parts and two
stand-alone programs:

- **GPU pool** (`server/app/gpu_pool.py`). It discovers device ids from the
  environment or from `nvidia-smi`. It keeps the free ids in a queue with a
  release cap (`max_slots`). It hands one id to each reserved block of work and
  takes it back afterwards.
- **Settings** (`server/app/config.py`). The `gpu_ids` validator turns a JSON
  string, a comma list or a ready value into the device list.
- **Storage** (`server/app/storage.py`). It lays out the `characters` tree under
  the data root, saves profiles and job metadata, lists the characters, and
  finds the latest job of a character.
- **Pipeline** (`server/app/pipeline.py`). One run copies the input image into
  `inputs/<job>/`. It writes a placeholder mesh and rig, a texture and a
  preview, then a metadata record. It returns the response record.
- **Handlers** (`server/app/main.py`). These are `create_character`,
  `get_characters`, `run_job` and `submit_job`. `submit_job` looks the
  character up, runs the job inside a GPU lease, and always removes the
  temporary upload.
- **Image uploader** (`main.py` at the repository root). It checks the content
  type and refuses an empty upload. It picks the file extension, stores the
  original under the SHA-256 of its bytes, and prepares an RGBA PNG for LaMa.
  Conversion or LaMa failures go to `logs.txt` and the answer is still `ok`.
- **Asset downloader** (`scripts/download_drawing_spinup_assets.py`). For each
  manifest entry it keeps a file whose hash matches, or downloads it again.
  A bad status or a hash mismatch stops the script with exit code 1. A
  `.tar.gz` download is unpacked next to the archive.

## Modules

The shared foundations:

- `Wrappers`: the `Option`, `Result` and `Outcome` types.
- `Text`: Python's `str.strip`, `split`, `join`, `splitlines` and ASCII
  `lower`, the comma list the code builds, and the string order `sorted` uses.
- `Values`: Python values and insertion-ordered dicts, with `get`, `d[k] = v`,
  `{**d, **e}`, truthiness and `str`/`repr`.
- `Paths`: `pathlib` paths as sequences of components, with `name`,
  `suffix`, `suffixes` and `with_suffix("")`.
- `FileSystem`: a class whose fields are the directory set, the file map and
  a ghost log of writes and removals. `mkdir(parents=True, exist_ok=True)`,
  `write_*`, append and `unlink(missing_ok=True)` are methods with their
  error cases.

These modules support the ones that model the core: `GpuPool`, `Config`,
`Storage`, `Pipeline`, `Server`, `Uploader` and `Assets`.

The code that changes state is modelled that way.

- `FileSystem.FileSystem`, `GpuPool.Pool` and `Pipeline.RiggingPipeline`
  are classes.
- Each handler is a method over the file system. On success its `ensures`
  gives the new files as a function of the old ones. On every outcome it
  names the files the call may touch, and all others keep their contents.
- Loops are `while` loops with invariants. These are the character
  listing, the latest-job search and the downloader's loop over entries.
- Each method that changes state is specified by a pure function. Lemmas
  then prove the properties the code promises about that function.

Clocks, `uuid4`, hashing, PIL, `imghdr`, HTTP and LaMa are parameters.
Their results arrive as arguments: a stamp, a hex token, a function from
bytes to an image, and so on.

## Model

| member | source | states |
|---|---|---|
| GpuPool.DiscoveryOrder | server/app/gpu_pool.py:12-29 | A non-empty `CUDA_VISIBLE_DEVICES` decides the ids. An empty or missing one defers to `NVIDIA_VISIBLE_DEVICES`. Only when both are empty or missing are the non-blank lines of `nvidia-smi` used, and a failed `nvidia-smi` gives no ids. |
| GpuPool.DiscoveredIdsAreClean | server/app/gpu_pool.py:14-28 | Every discovered id is non-empty and stripped. An id from the environment holds no comma. An id from `nvidia-smi` holds no line break. |
| GpuPool.InitialIds | server/app/gpu_pool.py:36-40 | The pool starts with the given ids, or with the discovered ones when none are given. It starts with `["cpu"]` exactly when that list is empty, so it is never empty. |
| GpuPool.EmptyListMeansCpu | server/app/gpu_pool.py:36-40 | An explicit empty id list gives `["cpu"]` whatever discovery would find. |
| GpuPool.EffectiveMaxSlots | server/app/gpu_pool.py:43 | `max_slots or len(ids)`: a missing or zero cap becomes the number of ids. Any other value, negative ones included, is kept. |
| GpuPool.ReleaseQueue | server/app/gpu_pool.py:61-66 | A release leaves the queue unchanged when it already holds `max_slots` ids. Otherwise it appends the id at the back and keeps the rest. |
| GpuPool.QueueStaysBounded | server/app/gpu_pool.py:54-66 | Over any sequence of acquires and releases, the free queue never grows beyond the larger of its first length and the cap. |
| GpuPool.LeasesConserved | server/app/gpu_pool.py:54-66 | Suppose the cap covers all ids in circulation and callers release only what they hold. Then the free ids and the held ids together always form the multiset the pool started with. |
| GpuPool.CapDoesNotGateAcquire | server/app/gpu_pool.py:54-59 | The cap does not limit acquires: three ids with a cap of two are all handed out. |
| GpuPool.ReleaseCanDropAnId | server/app/gpu_pool.py:61-64 | With more ids than the cap, a release can drop the id it is given. |
| GpuPool.ReleaseAcceptsAnyId | server/app/gpu_pool.py:61-66 | A release of an id the pool never handed out is appended, even when it duplicates a free id. |
| GpuPool.Pool.constructor | server/app/gpu_pool.py:35-43 | The new pool holds the initial ids and the effective cap, with no calls recorded. |
| GpuPool.Pool.Acquire | server/app/gpu_pool.py:54-59 | An acquire takes the front id and records it. On an empty queue, where the source waits, it reports that it would block and changes nothing. |
| GpuPool.Pool.Release | server/app/gpu_pool.py:61-66 | The queue becomes `ReleaseQueue` of the old queue, and the release is recorded. |
| GpuPool.Pool.Reserve | server/app/gpu_pool.py:45-52 | A reserve runs the block on the front id and then releases that same id exactly once, with both calls recorded in order. It would block exactly when no id is free. |
| Config.Strings | server/app/config.py:33 | Each piece of the comma list becomes a string value, in order. |
| Config.ParseGpuIds | server/app/config.py:25-36 | `None`, `""`, `[]` and `()` become `None`. A string becomes its JSON value when it parses, and its comma list otherwise. Any other value passes through unchanged. |
| Config.CommaFallbackIsClean | server/app/config.py:29-33 | A string that is not JSON becomes a list with one element per comma-list piece. Each element is a non-empty, stripped, comma-free string. |
| Config.BlankStringIsEmptyList | server/app/config.py:27-33 | A blank, non-empty string that is not JSON is not unset. It becomes the empty list, not `None`. |
| Text.Strip | server/app/gpu_pool.py:16 | `str.strip()` gives a stripped string that is empty exactly when the input is all whitespace. |
| Text.Split | server/app/config.py:33 | `str.split(sep)` gives at least one piece, none holding the separator. Joining the pieces with the separator gives back the input. |
| Text.CommaList | server/app/gpu_pool.py:16 | `[x.strip() for x in s.split(",") if x.strip()]` holds only non-empty, stripped, comma-free strings. |
| Text.CommaListSingle | server/app/config.py:33 | A comma-free string gives no piece when it is blank, and its stripped self otherwise. |
| Text.SplitLines | server/app/gpu_pool.py:28 | `str.splitlines()` gives lines without line breaks. It is empty exactly when the input is. |
| Text.LexLeTotal | server/app/storage.py:74-75 | Python's string order, used by `sorted`, is total. |
| Text.LexLeAntisymmetric | server/app/storage.py:74-75 | Two strings each at most the other are equal. |
| Text.LexLeTransitive | server/app/storage.py:74-75 | The string order is transitive. |
| Text.Lower | server/app/main.py:47 | `str.lower()` lowers each character in place and keeps the length. |
| Text.ReplaceChar | server/app/main.py:47 | `replace(" ", "-")` replaces exactly the spaces and keeps every other character. |
| Values.Get | server/app/storage.py:46-49 | `d.get(k)` finds a value exactly when `k` is a key, and the entry it finds is in the dict. |
| Values.PutGet | server/app/main.py:63 | After `d[k] = v`, `k` maps to `v` and every other key maps to what it did before. |
| Values.Put | server/app/storage.py:49 | `d[k] = v` keeps an existing key in its place and appends a new key at the end. |
| Values.MergeGet | server/app/storage.py:56 | In `{**d, **e}` a key of `e` takes its value from `e`. Every other key keeps its value from `d`. |
| Values.MergeKeepsPrefix | server/app/storage.py:56 | A merge never moves a key already present. |
| Values.Show | server/app/main.py:69 | `str(v)` of a string is the string itself. `None`, booleans and integers print as Python prints them, and a list, tuple or dict prints as its `repr`. |
| Values.QuoteFor | server/app/main.py:69 | `repr` quotes a string with `"` exactly when it holds a `'` and no `"`, and with `'` otherwise. |
| Values.EscapedQuoteFollowsBackslash | server/app/main.py:69 | Inside the quotes, the chosen quote appears only right after a backslash. |
| Values.UnescapeChar | server/app/main.py:69 | Each character's escape reads back as that character, whatever follows it. |
| Values.UnescapeEscape | server/app/main.py:69 | The escaped text of a string reads back as the string. |
| Values.ReprStringReadsBack | server/app/main.py:69 | `repr(s)` opens and closes with the same quote, and the text between reads back as `s`. |
| Values.PlainRepr | server/app/main.py:69 | A string with no quote, backslash or escaped character is written between single quotes unchanged. |
| Paths.Child | server/app/storage.py:13 | `p / name` adds one component to the end of `p`. |
| Paths.Components | scripts/download_drawing_spinup_assets.py:32 | A relative path string splits into components that are non-empty, not `.`, and free of `/`. |
| Paths.NameOf | server/app/main.py:74 | `Path(filename).name` holds no `/`. |
| Paths.SuffixShape | server/app/main.py:74 | `suffix` is empty or a dot followed by dot-free characters, and it ends the name. |
| Paths.WithoutSuffix | scripts/download_drawing_spinup_assets.py:81 | `with_suffix("")` of a name, followed by its suffix, is the name again. |
| FileSystem.Prefixes | server/app/storage.py:14 | The directories that `mkdir(parents=True)` makes are exactly the prefixes of the path. |
| FileSystem.FileSystem.MkDirs | server/app/storage.py:14 | `mkdir(parents=True, exist_ok=True)` succeeds exactly when no file stands at the path or an ancestor. On success it adds every prefix of the path. On failure it says which error and changes nothing. |
| FileSystem.FileSystem.WriteFile | server/app/storage.py:36 | A write succeeds exactly when the parent is a directory and the path is not one. On success it replaces that one file and records the write. |
| FileSystem.FileSystem.AppendText | main.py:119-120 | Opening in mode `"a"` and writing adds the text after the file's current text, under the same conditions as a write. |
| FileSystem.FileSystem.Unlink | server/app/main.py:86 | `unlink(missing_ok=True)` removes the file when there is one. It succeeds on a missing path. It fails on a directory, and with `NotADirectoryError` when a file stands at an ancestor. A failure changes nothing. |
| FileSystem.FileSystem.Read | server/app/pipeline.py:69 | A read succeeds exactly on an existing file and gives its content. |
| FileSystem.FileSystem.ReadJson | server/app/storage.py:46 | `json.loads(read_text())` succeeds exactly on a file that holds a JSON document, and gives that document. |
| FileSystem.FileSystem.SubDirs | server/app/storage.py:41-43 | `iterdir()` filtered by `is_dir()` gives exactly the names of the child directories. |
| FileSystem.FileSystem.DirPrefixes | server/app/storage.py:14 | Every ancestor of an existing directory is a directory, and no file blocks it. |
| Storage.LayoutSeparates | server/app/storage.py:24-31 | These locations stay apart: the job directory and its inputs directory, the metadata and its job directory, and the profile and both directories. |
| Storage.CharactersRoot | server/app/storage.py:12-15 | `characters_root()` makes `<root>/characters` and its ancestors unless a file blocks the path, and writes no file. |
| Storage.CharacterDir | server/app/storage.py:18-21 | `character_dir(cid)` makes `<root>/characters/<cid>`, and fails exactly when a file blocks that path. An existing directory is returned with nothing changed. |
| Storage.JobDir | server/app/storage.py:24-27 | `job_dir(cid, job)` makes `characters/<cid>/outputs/<job>`, with the same success condition and the same effect on directories. |
| Storage.JobMetadataPath | server/app/storage.py:30-31 | `job_metadata_path` has the effects of `job_dir` and gives `<job dir>/metadata.json`. |
| Storage.SaveMetadata | server/app/storage.py:34-36 | It makes the job directory and writes the metadata document at `metadata.json`. It succeeds exactly when no file blocks the job directory and no directory stands at the metadata path. On failure no file changes. |
| Storage.ListCharacters | server/app/storage.py:39-50 | The result holds one entry per character directory: the `character.json` document when it exists, else `{"character_id": name}`. The call succeeds exactly when no file blocks `characters` and every character's profile can be read. On failure it creates nothing more. |
| Storage.ReadableNow | server/app/storage.py:41-48 | Whether every profile can be read depends only on the directories and the files, not on the object holding them. |
| Storage.MkDirKeepsProfiles | server/app/storage.py:41-48 | Making `characters` and its ancestors changes no character's profile and does not change whether the profiles can be read. |
| Storage.CollectProfiles | server/app/storage.py:41-49 | The loop over character directories reads each profile, or the default for a missing one. It fails exactly when some profile cannot be read. |
| Storage.ProfileMergeOrder | server/app/storage.py:56 | The saved profile has no repeated key and starts with `character_id`. A payload's `character_id` overrides the id and other payload keys keep their values. `updated_at` is always the stamp. |
| Storage.SaveCharacterProfile | server/app/storage.py:53-57 | It makes the character directory and writes the merged profile at `character.json`, with the same success condition as a write there. On every outcome it adds no directory outside the character directory's chain. |
| Storage.RegisterInputImage | server/app/storage.py:64-67 | It makes `characters/<cid>/inputs/<job>` and gives the file name inside it, without writing a file. |
| Storage.GreatestIsUnique | server/app/storage.py:74-75 | The last element of the sorted job names is unique. |
| Storage.LatestIsNotNewest | server/app/storage.py:74-75 | The latest job is the one whose name sorts last; no creation time is consulted. With `aaa111` and `bbb222`, `bbb222` is the latest. |
| Storage.LatestJob | server/app/storage.py:70-75 | `latest_job` gives `None` when `outputs` is missing or has no subdirectory. Otherwise it gives the greatest subdirectory name. It fails when `outputs` is a file or the character directory is blocked. |
| Storage.Greatest | server/app/storage.py:74-75 | `sorted(...)[-1]` of a set of names is `None` exactly when the set is empty, and otherwise its greatest name. |
| Pipeline.AsResponse | server/app/pipeline.py:24-32 | `as_response()` has exactly the six keys in order, each once, each holding the string form of its field. |
| Pipeline.JobId | server/app/pipeline.py:39 | `uuid4().hex[:12]` is twelve lower-case hexadecimal digits taken from the front of the token. |
| Pipeline.MetadataAgreesWithResponse | server/app/pipeline.py:53-65 | The metadata and the response name the same character and job. The metadata carries the stamp and the artifact record, with no repeated key. |
| Pipeline.ArtifactsAgreeWithResponse | server/app/pipeline.py:57-62 | Each artifact string in the metadata equals the response's string for that path. |
| Pipeline.ArtifactsShareJobDir | server/app/pipeline.py:41-46 | The four artifacts and the metadata are five different files in the job directory. |
| Pipeline.MeshLinesRoundTrip | server/app/pipeline.py:72-89 | The placeholder mesh text splits at newlines into exactly its three header lines and eleven body lines. |
| Pipeline.MeshHeaderText | server/app/pipeline.py:73 | The header literal is the three header lines, each ended by a newline. |
| Pipeline.MeshPiecesOneLine | server/app/pipeline.py:73-88 | No mesh line holds a newline. |
| Pipeline.Bone | server/app/pipeline.py:94-96 | A bone is a dict with no repeated key, holding its name and its parent. |
| Pipeline.RigIsChain | server/app/pipeline.py:91-100 | The rig's skeleton has three bones, `root`, `spine` and `head`. The root has parent `None` and every later bone has the previous bone as parent. |
| Pipeline.OutputsFreeAfterPrepare | server/app/pipeline.py:40-46 | Making the inputs and job directories puts no directory where an output file goes. |
| Pipeline.RunPathsArePlanned | server/app/pipeline.py:40-64 | The files a run may touch are exactly the targets of its planned writes. |
| Pipeline.RunPathsDepth | server/app/pipeline.py:40-64 | Every file a run writes lies five levels below the data root. |
| Pipeline.WritesDoNotBlockJobDir | server/app/pipeline.py:40-64 | No file a run writes lies at or above the job directory or the inputs directory. |
| Pipeline.RiggingPipeline.constructor | server/app/pipeline.py:72-100 | The pipeline holds the placeholder mesh text and the rig document. |
| Pipeline.RiggingPipeline.StoreInputImage | server/app/pipeline.py:67-70 | It copies the image's bytes to `inputs/<job>/<name>`. It succeeds exactly when the image exists, the inputs directory can be made and no directory stands at the target. On failure no file changes. |
| Pipeline.RiggingPipeline.Run | server/app/pipeline.py:38-65 | The writes are an initial part of the planned ones, in the planned order, whatever the outcome. A run succeeds exactly when it is runnable. Then it returns the result for `JobId(token)` and writes exactly the planned files with the given contents. It adds exactly the inputs and job directories. On every outcome, it adds no directory outside those two chains and removes none, and each file outside the planned targets keeps its content. |
| Pipeline.RiggingPipeline.PrepareJob | server/app/pipeline.py:40-41 | It stores the input and makes the job directory, adding exactly those two directory chains on success. On failure it adds no directory outside them. It then leaves the job directory unblocked. It touches no file but the input copy. |
| Pipeline.RiggingPipeline.CompleteRun | server/app/pipeline.py:43-65 | The part of a run after the input is stored and the job directory made. Counted from the state before the run, the writes are an initial part of the planned ones. The run succeeds exactly when it is runnable. It then returns the result for the job, its log is exactly the planned writes and its files hold the planned contents. The directories stay as the preparation left them. Each file outside the planned targets keeps its content. |
| Pipeline.RiggingPipeline.FinishJob | server/app/pipeline.py:43-65 | It writes the four artifacts and then the metadata, in that order. It succeeds exactly when no directory occupies an output file and PIL reads the input, and it adds no directory. It touches no other file. |
| Pipeline.RiggingPipeline.WriteArtifacts | server/app/pipeline.py:48-51 | The mesh, the rig, the texture and the preview are written in that order. It succeeds exactly when their paths are free and both image conversions succeed. It touches no other file. |
| Pipeline.RiggingPipeline.WritePlaceholders | server/app/pipeline.py:72-100 | It writes the mesh text to `model.obj` and the rig document to `rig.json`, in that order, and touches no other file. |
| Pipeline.RiggingPipeline.WriteImages | server/app/pipeline.py:102-109 | It writes the RGB texture to `albedo.png` and the thumbnail to `preview.png`, and fails when PIL cannot open the input. It touches no other file. |
| Server.Slug | server/app/main.py:47 | The id has the name's length. Each position holds `-` for a space and otherwise the lowered character. |
| Server.SlugIsNormal | server/app/main.py:47 | An id holds no space and no upper-case ASCII letter, and slugging it again changes nothing. |
| Server.TextOrNone | server/app/main.py:46-57 | An optional description becomes a value that the response's `Optional[str]` field reads back unchanged. |
| Server.PayloadFields | server/app/main.py:48 | `payload.dict()` has exactly the keys `name` and `description`, each holding what was sent. |
| Server.CreateCharacter | server/app/main.py:46-57 | It saves the merged profile under the slug and makes the character directory. It answers with the name, the description, the later stamp, no job and no metadata. It succeeds exactly when no file blocks the character directory and no directory stands at `character.json`. On failure it writes no file. On every outcome it adds no directory outside the chain of the character directory. |
| Server.Projection | server/app/main.py:69 | The metadata holds only string values and never one of the four reported keys. |
| Server.ProjectGet | server/app/main.py:69 | The metadata maps every other profile key to `str` of its value and has no other key. |
| Server.FieldText | server/app/main.py:65-67 | A profile field reads as text exactly when it is present and a string, an integer or a boolean. A string reads as itself and any other as `str(v)`, as pydantic converts it. |
| Server.CharacterView | server/app/main.py:63-70 | The response for a profile exists exactly when the profile fits the response model. It carries the directory name as id and the latest job given. |
| Server.CreatedCharacterLists | server/app/main.py:46-70 | A character just created lists with its name, its description, its profile's stamp and empty metadata. |
| Server.CreatedProfile | server/app/main.py:48 | The profile `create_character` saves holds the name, the description and the stamp, and only reported keys. |
| Server.SavedPayload | server/app/storage.py:56 | A profile saved from a payload with exactly the keys `name` and `description` holds their values and the stamp, and only reported keys. |
| Server.MergedHidden | server/app/storage.py:56 | A profile saved from a payload of reported keys holds only reported keys. |
| Server.ProjectionOfReported | server/app/main.py:69 | A profile holding only reported keys gives empty metadata. |
| Server.ViewOfReported | server/app/main.py:63-70 | A profile with the name, the description and the stamp and no other key is shown with exactly those fields. |
| Server.GetCharacters | server/app/main.py:60-71 | The answer has one entry per character directory, each built from its profile and its latest job. It succeeds exactly when every character can be listed. It writes no file. It adds the `characters` chain when no file blocks it, and otherwise fails without adding a directory. |
| Server.CollectEntries | server/app/main.py:62-70 | The loop builds an entry for exactly the listed characters, creating no directory. |
| Server.CharacterEntry | server/app/main.py:63-70 | One entry is the listing's response for that directory. A failure means the listing as a whole cannot succeed. |
| Server.ListedAll | server/app/main.py:62-71 | A response whose every entry is found makes the characters listable. |
| Server.UnlistableAt | server/app/main.py:63-70 | One character spoils the listing when its `outputs` is a file, or when its profile does not fit: it is not a dict, or its name, description or stamp is something other than null, a string, an integer or a boolean. |
| Server.TempNameShape | server/app/main.py:74 | The temporary name starts with the id, a dash and the token. A missing or empty file name gives `.png`. A dot-free base name gives no extension. Otherwise the extension is the base name's last suffix. No `/` enters the name. |
| Server.TempAside | server/app/main.py:75-76 | The temporary upload is not a directory the pipeline makes or an ancestor of one. |
| Server.UploadAside | server/app/main.py:75-84 | Making `tmp` and writing the upload there changes nothing the pipeline looks at. |
| Server.UploadedRunnable | server/app/main.py:76-84 | After the upload is saved, the pipeline can run on it exactly when the upload was acceptable. |
| Server.RunJob | server/app/main.py:73-87 | `run_job` makes `tmp` and refuses an empty upload before writing. It then runs the pipeline. The temporary file is gone afterwards whatever the outcome. It succeeds exactly when the upload is acceptable, with the pipeline's response and files. On success it adds exactly the `tmp`, inputs and job directory chains. On every outcome it adds no other directory and removes none, and it touches only the run's files and the temporary upload. When a file blocks `tmp` the directories do not change. |
| Server.SaveUpload | server/app/main.py:74-80 | It makes `tmp`, refuses empty contents with 400, and writes the upload. It adds no directory outside the `tmp` chain, and none when a file blocks `tmp`. |
| Server.RunUploaded | server/app/main.py:82-87 | It runs the pipeline on the upload and then removes the upload, also when the run failed. It touches only the run's files and the upload. It adds exactly the inputs and job directory chains on success, and no other directory on any outcome. |
| Server.JobKeepsProfiles | server/app/main.py:73-87 | No character's `character.json` is among the files a job may touch. |
| Server.FindCharacter | server/app/main.py:94-96 | The lookup fails with the listing's error exactly when the listing fails. Otherwise it gives 404 exactly when the character has no directory. It writes no file. It adds the `characters` chain when no file blocks it and nothing otherwise; a found character leaves the directories unchanged. |
| Server.ListingKeepsUploadable | server/app/main.py:94-101 | The directories the listing creates do not change whether the job can then run. |
| Server.SubmitJob | server/app/main.py:90-101 | The listing's error is returned exactly when the listing fails, and 404 exactly when it succeeds without the character; neither takes a lease. For a listed character with a free GPU id, it takes the front id, runs the job and gives the id back exactly once. The job then succeeds exactly when the upload is acceptable, and an empty upload gives 400. It is busy exactly when no id is free. It touches only the job's files. On success it adds exactly the job's directory chains. A 404 or a listing error adds at most the `characters` chain, and a busy answer adds nothing. No outcome adds any other directory. |
| Server.ReservedRun | server/app/main.py:98-101 | The `with gpu_pool.reserve()` block. It is busy exactly when no id is free. Otherwise the lease is released once after the job, and the job succeeds exactly when the upload is acceptable; an empty upload gives 400. On success it adds exactly the `tmp`, inputs and job directory chains, with no other directory on any outcome. A busy answer changes nothing. |
| Uploader.ExtForRenames | main.py:26-52 | `IMGHDR_TO_EXT.get(kind, kind)` renames `jpeg` to `jpg` and `tiff` to `tif` and keeps every other kind. |
| Uploader.KindWins | main.py:49-52 | A detected image kind decides the extension whatever the content type. |
| Uploader.FallbackSuffixesExclusive | main.py:53-61 | No content type ends with two of the fallback suffixes. |
| Uploader.FallbackChainExclusive | main.py:53-62 | With at most one suffix matching, the chain of `if`s picks exactly the matching one, and `png` when none match. |
| Uploader.FallbackByContentType | main.py:49-62 | Without a detected kind, the extension is `jpg` exactly for `/jpeg` or `/jpg`, `webp` exactly for `/webp` and `gif` exactly for `/gif`. It is `png` for anything else and for a missing content type. |
| Uploader.LayoutSeparates | main.py:94-107 | `input.<ext>`, `char/`, `char/input.png` and `logs.txt` are different paths, and none is an ancestor of another. |
| Uploader.ConvertOutcomePass | main.py:69-76 | The conversion succeeds exactly when the parent of the target can be made, PIL reads the source, and no directory stands at the target. |
| Uploader.EnsurePngForLama | main.py:69-76 | `_ensure_png_for_lama` makes the target's parent and writes the RGBA PNG. It fails with the PIL or filesystem error, and then no file changes. |
| Uploader.ConvertAfterSave | main.py:98-107 | After the original is saved, the conversion succeeds exactly when no file stands at `char`, PIL reads the upload, and no directory stands at `char/input.png`. Otherwise it fails with the first of those errors. |
| Uploader.SaveOriginal | main.py:93-99 | It makes the hash directory and writes `input.<ext>`. It succeeds exactly when no file blocks the directory and no directory stands at that file. |
| Uploader.PrepareForLama | main.py:101-120 | It converts the input for LaMa, logging a failure, then runs LaMa, appending a failure to `logs.txt`. It fails only when the log cannot be written, and then the files are those after the conversion alone. |
| Uploader.UploadCharacterImage | main.py:79-123 | A missing or non-`image/` content type gives 415, and an empty body gives 400; either changes nothing. Otherwise it answers `{"status": "ok"}` exactly when every write can be made, with exactly the stored files and directories. On a filesystem error (500) the files and directories are those of `FailedFiles` and `FailedDirs`: unchanged files when the original could not be saved, or else the original and the converted input. |
| Uploader.FailedDiffersOnlyInLog | main.py:79-123 | An upload that fails after saving its original leaves every file but `logs.txt` as a complete upload would. |
| Uploader.StoredOriginal | main.py:97-99 | After an accepted upload, `input.<ext>` holds the uploaded bytes. |
| Uploader.StoredLamaInput | main.py:101-105 | When conversion works, `char/input.png` holds the PNG. Otherwise it is unchanged. |
| Uploader.StoredLog | main.py:104-120 | `logs.txt` holds the conversion failure line, then the LaMa failure line, each only when it happened. Otherwise it is unchanged. |
| Uploader.StoredNothingElse | main.py:79-123 | No other file changes. |
| Uploader.OkDespiteFailures | main.py:104-123 | While `logs.txt` can be written, conversion and LaMa failures do not change the `ok` answer. |
| Assets.FirstMissing | scripts/download_drawing_spinup_assets.py:28-34 | The first required key the entry lacks, and none exactly when it has them all. |
| Assets.FromDictChecks | scripts/download_drawing_spinup_assets.py:27-35 | `from_dict` accepts exactly a mapping with the four keys and a string destination. Otherwise it names the first missing key. The asset carries the entry's values and `base_dir / destination`. |
| Assets.RelativeUnderBase | scripts/download_drawing_spinup_assets.py:32 | A relative destination joined to the manifest's directory begins with that directory's components, followed by the destination's own components, none empty or `.`. The join is lexical, so a `..` stays a component. |
| Assets.TarGzName | scripts/download_drawing_spinup_assets.py:80-81 | A name whose last two suffixes are `.tar` and `.gz` ends with `.tar.gz`. `with_suffix("")` drops exactly the `.gz`. |
| Assets.ExtractBesideArchive | scripts/download_drawing_spinup_assets.py:79-83 | A `.tar.gz` archive is unpacked into the directory beside it named like it without `.gz`. |
| Assets.KeptIffHashMatches | scripts/download_drawing_spinup_assets.py:93-98 | An asset is kept exactly when its file exists and hashes to the expected value. It is then announced as skipped and nothing changes. |
| Assets.MismatchRefetches | scripts/download_drawing_spinup_assets.py:94-105 | A present file with the wrong hash is warned about and downloaded again. |
| Assets.ExitOneCauses | scripts/download_drawing_spinup_assets.py:59-117 | A fetch ends the script with exit code 1 exactly on a bad status or a non-empty expected hash that differs. A bad status changes nothing. A mismatch removes the download. |
| Assets.EmptyHashAccepts | scripts/download_drawing_spinup_assets.py:109-118 | An empty expected hash stores any download as received. The download is accepted unless it is a `.tar.gz` that does not unpack, which raises. |
| Assets.ProcessAsset | scripts/download_drawing_spinup_assets.py:93-118 | One turn of the loop leaves the tree, the lines and the verdict that `AssetStep` gives. |
| Assets.Fetch | scripts/download_drawing_spinup_assets.py:103-118 | The download, the hash check, the removal and the unpacking leave the tree, the lines and the verdict that `FetchStep` gives. |
| Assets.ClosingLineIffAllKept | scripts/download_drawing_spinup_assets.py:91-122 | A run that returns prints the closing line exactly when every entry was kept, and then the tree is unchanged. |
| Assets.ClosingLineNeverAfterFetch | scripts/download_drawing_spinup_assets.py:119-122 | Once something was downloaded the closing line never appears. |
| Assets.StopIgnoresRest | scripts/download_drawing_spinup_assets.py:104-117 | After an entry that stops the script, later entries do not matter. |
| Assets.TakeTurn | scripts/download_drawing_spinup_assets.py:92-119 | One turn either ends the run with the outcome `RunAssets` gives, or leaves output that, followed by `RunAssets` of the remaining entries, gives the same run. |
| Assets.DownloadAssets | scripts/download_drawing_spinup_assets.py:86-122 | `main()` ends with the exit, the lines, the extractions and the tree that `Script` gives for the manifest. |

## Left out

- Concurrency: the `Condition` wait in `acquire` is modelled as "would block", and the call then changes nothing. Thread interleavings are not modelled.
- GpuPool.Pool.Reserve: the work inside the block is a pure function of the id. Exceptions raised in the block are modelled in `Server.ReservedRun`, which releases on every outcome.
- `GpuPool.__repr__`, `create_app`'s CORS setup, `healthcheck` and the startup `mkdir` of the data root are not modelled. They are framework wiring and carry no logic.
- Server.ReservedRun: the `[job]` line that `submit_job` prints with the character and the assigned GPU id is not modelled. It is console output only and changes no state.
- Settings: pydantic's environment reading is not modelled. Only the `gpu_ids` validator is. `json.loads` is a parameter.
- Text.Lower: lowercasing is ASCII-only. Unicode case mapping is not modelled.
- Server.Slug: built on `Text.Lower`, so it lowers only ASCII letters.
- Values.Show: there are no floats, so `str` of a float is not modelled. `repr` treats every character above U+00FF as printable, and does not write the `\u` and `\U` escapes.
- Server.FieldText: pydantic also converts floats, `Decimal`s and bytes. These have no `Value` here.
- JSON: a JSON file holds the document as a value. Serialisation, indentation and `ensure_ascii` are not modelled.
- PIL, `imghdr`, SHA-256, `uuid4`, the clock, HTTP (`requests`) and LaMa are parameters: functions or values given to the model.
- Paths.Child: the tree is lexical. A component is one name, and a name is never split or resolved. `pathlib` splits a name holding `/` and drops a name that is empty or `.`, and the operating system resolves `..`. A manifest destination is the exception: it is split and cleaned as `pathlib` does.
- Server.CreateCharacter: a name whose slug is empty, `.` or `..`, or holds `/`, is stored in the model under a character of that name. The service itself writes elsewhere, e.g. `characters/character.json` for the empty name.
- Storage.CharacterPath: the character directory is `characters/<id>` as one component, with the lexical reading of `Paths.Child`.
- Assets.RelativeUnderBase: a destination with a `..` component leaves `base_dir` on disk. The lemma states only that the joined path begins with `base_dir`.
- FileSystem.FileSystem.AppendText: a file that holds no text reads as empty before the append.
- Server.GetCharacters: the order in which `iterdir()` lists characters is not modelled. The result is a map.
- Uploader.UploadCharacterImage: the write log is not stated. The contract covers the files and directories.
- Uploader: LaMa's own writes are not modelled. Its outcome is a parameter that is either success or an error message.
- Assets.DownloadAssets: the files `tarfile.extractall` writes are not modelled. Whether an archive unpacks is a parameter (`unpacks`), and a failed unpacking raises and ends the run. The model also states which directory each archive is unpacked into. The write log is not stated.
- Assets: the manifest arrives already parsed. Reading the YAML and `yaml.safe_load` are not modelled.
- Assets: the `FileNotFoundError` of `iter_assets` cannot be reached after `main`'s own check, so it is not modelled.
- Assets: printed messages are `Line` values. Their wording, and stdout versus stderr, are not kept.
- Assets: chunked `iter_content` streaming is modelled as the whole body. Empty chunks add nothing.

In four places the code does something other than what a reader of the
service might expect. The model follows the code:

- **Capacity.** One might expect a pool capacity of zero or less to be an
  error. The code replaces a missing or zero `max_slots` by the number of ids and
  accepts a negative one (`GpuPool.EffectiveMaxSlots`).
- **Acquires.** One might expect at most `max_slots` ids to be leased at
  once. The code's cap only limits releases (`GpuPool.CapDoesNotGateAcquire`,
  `GpuPool.ReleaseCanDropAnId`).
- **Unknown ids.** One might expect a release of an unknown id to do
  nothing. The code appends any id (`GpuPool.ReleaseAcceptsAnyId`).
- **Listing.** Listing characters creates the `characters` directory when it
  is missing (`Storage.ListCharacters`).
