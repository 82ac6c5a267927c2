# cimfs-rs core, modelled in Dafny

cimfs-rs wraps the Windows CimFS API, which builds, mounts and dismounts composite
image (CIM) files. This project models four parts of it:

- `Object` (cimfs/src/object.rs). It turns a source path into the relative path the file
  gets inside an image, and can list the ancestor directories that must be added first.
- `Image` (cimfs/src/image.rs). It creates or forks an image and adds one file to it.
  Adding a file opens the source, queries its basic information, size, reparse data and
  security descriptor, builds the `CIMFS_FILE_METADATA`, calls `CimCreateFile`, copies the
  data in 64 KiB chunks and closes the stream and the source. It also commits the image.
- The raw and util helpers (cimfs/src/lib.rs): `to_large_int`, `ctl_code` and
  `FSCTL_GET_REPARSE_POINT`, the privilege request built by `toggle_privilege` and its
  `previously_enabled` test.
- The `cimutil` front end (cimfs/src/bin/cimutil.rs):
  - the root-directory check;
  - the `new`, `fork`, `mount` and `dismount` commands, with their empty-name checks;
  - `parse_objects_from_args`;
  - the normalisation of the dismount volume id;
  - the volume path that `mount` prints.

Windows and the CimFS engine are a `Host` class (host.dfy). Each call the crate makes is a
`Host` method that appends one `Event` to the host's log. An event records the arguments
and the reply the host chose. Every method that calls the host is proved against a
specification function of those replies. The function gives the exact calls and the
result: `CreateFileRun` for `create_file`, `BuildRun` for new/fork, `CommandRun` for
`main`. Lemmas then prove what those traces satisfy:

- the bytes written are the bytes read, in order;
- the stream is used only after `CimCreateFile` returned it;
- objects are created in argument order;
- commit is the last call;
- a rejected command makes no call at all;
- the printed volume path dismounts the mounted volume.

The filesystem the resolver consults is a value, `FileSystem`. It records which paths
canonicalize (and to what) and which relative paths are files. A command sees two such
values: `fs` for the root check and the object arguments, and `later` for the build, where
`get_src_path` canonicalizes each source again. A source removed in between therefore
stops the build with E_INVALIDARG.

Modules, one per file: `Core` (integers, `Result`, `HResult`), `Raw` and `Util` (lib.rs),
`Paths` (std::path components and orderings), `Objects` (object.rs), `Environment` (the
host), `Images` and `ImageTrace` (image.rs), `ObjectArgs`, `Builds`, `BuildTrace`,
`VolumeIds` and `CimUtil` (cimutil.rs).

The specification and the code disagree in a few places. The model follows the code:

- error paths leak handles;
- `commit` keeps the handle;
- directories run the copy loop;
- security capture is not best-effort;
- the ancestors that `resolve_relative_path` computes are discarded by the front end.

## Model

Rows that cite the `new` command in cimutil.rs (parse at 203, `Image::new` and `create` at 206-208, the loop at 210-216, commit at 219) hold equally for `fork`, which runs the same steps at 235, 242-244, 246-252 and 255.

| member | source | states |
|---|---|---|
| Raw.ToLargeInt | cimfs/src/lib.rs:34-38 | the timestamp is stored unchanged in QuadPart |
| Raw.ToLargeIntInjective | cimfs/src/lib.rs:36-37 | two different timestamps never give the same LARGE_INTEGER |
| Raw.CtlCode | cimfs/src/lib.rs:53-68 | the code is computed on 32-bit unsigned values; for in-range fields, device type, access, function and method are each recovered from it by a shift and a mask |
| Raw.CtlCodeIsWeightedSum | cimfs/src/lib.rs:58-67 | for in-range fields the bitwise or equals the weighted sum, so no field spills into another |
| Raw.CtlCodeDropsHighDeviceBits | cimfs/src/lib.rs:67 | device-type bits above bit 15 are shifted out and do not change the code |
| Raw.FsctlGetReparsePointValue | cimfs/src/lib.rs:44-51 | FSCTL_GET_REPARSE_POINT built from FILE_DEVICE_FILE_SYSTEM, 42, METHOD_BUFFERED and FILE_ANY_ACCESS is 0x000900A8 |
| Util.PrivilegeRequest | cimfs/src/lib.rs:135-140 | the request holds exactly one privilege with the looked-up LUID, and its attributes are SE_PRIVILEGE_ENABLED when enabling and 0 when disabling |
| Util.PreviouslyEnabled | cimfs/src/lib.rs:156-162 | true exactly when the byte count is the full record size, the count is 1, and the privilege had the enabled or the enabled-by-default bit |
| Util.RequestReadsBack | cimfs/src/lib.rs:135-162 | the request record, read back whole as the previous state, counts as previously enabled exactly when it was an enabling request |
| Util.ShortRecordNotEnabled | cimfs/src/lib.rs:156-157 | a record shorter than TOKEN_PRIVILEGES never counts as previously enabled |
| Paths.LexIrreflexive | cimfs/src/object.rs:9 | the lexicographic order the derived Ord uses is irreflexive when the element order is |
| Paths.LexTransitive | cimfs/src/object.rs:9 | the lexicographic order is transitive when the element order is |
| Paths.LexTrichotomous | cimfs/src/object.rs:9 | any two different sequences are ordered one way or the other when the element order is total |
| Paths.LexPrefixFirst | cimfs/src/object.rs:9 | a sequence sorts before each of its proper extensions |
| Paths.NameLessIsStrictTotalOrder | cimfs/src/object.rs:9-13 | the order on component names is a strict total order |
| Paths.PathLessIsStrictTotalOrder | cimfs/src/object.rs:9-13 | the order on relative paths is a strict total order |
| Paths.PathLessAsymmetric | cimfs/src/object.rs:9-13 | the order on relative paths is asymmetric |
| Paths.ParentSortsFirst | cimfs/src/object.rs:9-13 | a directory sorts before every path beneath it |
| Paths.ComponentCodeInjective | cimfs/src/object.rs:9-16 | different components (prefix kinds and their fields included) have different codes in the derived order |
| Paths.ComponentLessIsStrictTotalOrder | cimfs/src/object.rs:9-16 | the derived order on components is a strict total order |
| Paths.SrcLessIsStrictTotalOrder | cimfs/src/object.rs:9-16 | the derived order on source paths (component by component) is a strict total order |
| Objects.ResolvedNamesNonEmpty | cimfs/src/object.rs:46-79 | every name in a resolved relative path is non-empty |
| Objects.RootIsLastSetterThenDots | cimfs/src/object.rs:44-74 | the root accumulator after the loop is the last disk-like prefix or root directory, followed by every `.` and `..` after it, or just those dots when no such component exists |
| Objects.RootSpecSnoc | cimfs/src/object.rs:57-74 | the closed form of the root accumulator takes the same step per component as the loop does |
| Objects.DotsAreDots | cimfs/src/object.rs:67-68 | the dots collected are `.` and `..` components only |
| Objects.RootContributesNothing | cimfs/src/object.rs:57-74 | nothing that goes into the root accumulator adds to the relative path |
| Objects.RootishResolvesEmpty | cimfs/src/object.rs:57-74 | a source made only of prefixes, root directories and dots resolves to the empty relative path |
| Objects.ResolvedAppend | cimfs/src/object.rs:46-79 | resolving a concatenation gives the two resolved paths joined, in order |
| Objects.NonContributingDropped | cimfs/src/object.rs:57-74 | removing a `.`, `..`, root directory or disk-like prefix does not change the resolved path |
| Objects.ParentDirExample | cimfs/src/object.rs:67-77 | `../src/file.txt` resolves to `src/file.txt` |
| Objects.ResolvedAsComponents | cimfs/src/object.rs:75-77 | a relative path turned back into Normal components resolves to itself |
| Objects.KeyLessIsStrictTotalOrder | cimfs/src/object.rs:9-17 | the derived Ord on objects (relative path, then source) is a strict total order |
| Objects.KeyLessByRelativePath | cimfs/src/object.rs:9-17 | objects with different relative paths are always ordered, by their relative paths alone |
| Objects.CanonicalAboveMeans | cimfs/src/object.rs:84-92 | the loop's canonicalization invariant holds exactly when each ancestor source above the given depth canonicalizes |
| Objects.AncestorRangeDepth | cimfs/src/object.rs:84-93 | every collected ancestor key was made for a depth strictly between the stopping depth and the path |
| Objects.AncestorRangeHasDepth | cimfs/src/object.rs:84-93 | every depth strictly between the stopping depth and the path has its key in the collected set |
| Objects.AncestorResolvesToItself | cimfs/src/object.rs:90-91 | an ancestor object at depth j, resolved without its own ancestors, gets the first j names of the path as its relative path |
| Objects.AncestorDepth | cimfs/src/object.rs:84-93 | each ancestor key belongs to one depth between the deepest file and the path |
| Objects.AncestorsAreResolvedPrefixes | cimfs/src/object.rs:83-92 | each ancestor is a strict, non-empty prefix of the relative path, made from the root accumulator (empty when there is none) joined with that prefix |
| Objects.AncestorsStopAtFirstFile | cimfs/src/object.rs:84-88 | no ancestor is a file, and none lies at or above the deepest prefix that is a file |
| Objects.AncestorsOrderedByDepth | cimfs/src/object.rs:84-93 | within one ancestor set the derived order is the order of depth, parents before children |
| Objects.PrefixKeysOrdered | cimfs/src/object.rs:9-17 | keys at two prefixes of one path are ordered exactly as the prefixes' lengths |
| Objects.AncestorCount | cimfs/src/object.rs:84-93 | the set holds exactly one object per depth between the deepest file and the path |
| Objects.RangeCount | cimfs/src/object.rs:84-93 | the keys of the depths strictly between a depth and the path are all distinct: one per depth |
| Objects.AncestorsOnceStopped | cimfs/src/object.rs:84-88 | when the walk reaches the first file (or passes the top), the ancestor set is exactly the keys collected so far |
| Objects.AncestorsOnFailure | cimfs/src/object.rs:86-91 | an ancestor that is not a file, is reached before any file and whose source does not canonicalize makes the ancestor set E_INVALIDARG |
| Objects.AncestorStep | cimfs/src/object.rs:84-93 | one more depth that is not a file and canonicalizes keeps the walk's invariants one level up and adds exactly its own key |
| Objects.Object.constructor | cimfs/src/object.rs:22-27 | a new object has the given source and an empty relative path |
| Objects.Object.GetRelativePath | cimfs/src/object.rs:104-113 | E_INVALIDARG while the relative path is empty, the relative path otherwise |
| Objects.Object.GetSrcPath | cimfs/src/object.rs:117-121 | the canonical source path, or E_INVALIDARG when the source does not canonicalize |
| Objects.Object.ResolveRelativePath | cimfs/src/object.rs:33-98 | an object with a relative path is left alone with no ancestors; otherwise a source that does not canonicalize gives E_INVALIDARG and no change; else the relative path becomes the resolved source and the result is the ancestor set (empty without parse_ancestors), with the path stored even when an ancestor fails |
| Objects.FoldComponents | cimfs/src/object.rs:42-79 | the component loop leaves the resolved path in relative_path and the last root setter followed by its dots in the root accumulator |
| Objects.ResolveAncestor | cimfs/src/object.rs:90-91 | a new object for the ancestor source, resolved without ancestors, has the key AncestorKey gives, or fails with E_INVALIDARG when that source does not canonicalize |
| Objects.CollectAncestors | cimfs/src/object.rs:82-94 | the ancestor walk returns exactly the ancestor set: the keys of each depth below the first file, or E_INVALIDARG on the first ancestor that does not canonicalize |
| ObjectArgs.AllResolveIff | cimfs/src/bin/cimutil.rs:291-299 | every argument resolves exactly when each one in turn does |
| ObjectArgs.ResolveArgument | cimfs/src/bin/cimutil.rs:294-295 | a new object for the argument is resolved, and succeeds exactly when resolution succeeds for that source; its key is the resolved one |
| ObjectArgs.ParseObjectsFromArgs | cimfs/src/bin/cimutil.rs:291-299 | Ok exactly when every argument resolves, and then one object per argument in order with its resolved key; otherwise E_INVALIDARG |
| Images.Image.constructor | cimfs/src/image.rs:47-53 | a new image has the given root and name and a null handle |
| Images.Image.Create | cimfs/src/image.rs:57-86 | one CimCreateImage call with the root, the image to fork from (or none) and the name; the returned handle is kept only on a success status, which is the result |
| Images.Image.CreateFile | cimfs/src/image.rs:92-287 | the calls made and the result are CreateFileRun of the host's replies, and the copy loop ends as the loop can end |
| Images.Image.Commit | cimfs/src/image.rs:291-300 | one CimCommitImage call on the current handle, whose status is the result; the handle is unchanged |
| Images.Capture | cimfs/src/image.rs:112-147 | opening the source and querying its basic information, then the rest, make the calls and give the outcome Prepare describes |
| Images.ExamineFile | cimfs/src/image.rs:134-203 | the size query (files only), the reparse query (reparse points only) and the security query make the calls and build the metadata Examine describes |
| Images.CopyData | cimfs/src/image.rs:244-283 | the copy loop and the two closes make the calls and give the result CopyRun describes |
| Images.CopyChunks | cimfs/src/image.rs:244-277 | every pass reads the whole 64 KiB buffer and writes exactly the bytes read; the loop stops after an empty read or a failed write or read, with that error |
| ImageTrace.BytesReadAppend | cimfs/src/image.rs:250-266 | the bytes read by two traces in a row are the first's followed by the second's |
| ImageTrace.BytesWrittenAppend | cimfs/src/image.rs:266-272 | the bytes written by two traces in a row are the first's followed by the second's |
| ImageTrace.QueriesCarryNoBytes | cimfs/src/image.rs:112-203 | the source queries read and write no data |
| ImageTrace.ChunkBytes | cimfs/src/image.rs:244-277 | the copy loop reads and writes exactly the bytes of its passes |
| ImageTrace.ChunkEventAt | cimfs/src/image.rs:250-272 | pass i is the read at position 2i, of the whole buffer, and the write of the same bytes right after it |
| ImageTrace.PrepareOnlyQueries | cimfs/src/image.rs:112-203 | everything before CimCreateFile queries the source file and nothing else |
| ImageTrace.RunShape | cimfs/src/image.rs:92-287 | a create_file trace is the queries, then CimCreateFile when metadata was built, then the copy loop and the closes when CimCreateFile succeeded |
| ImageTrace.CopyRunBytes | cimfs/src/image.rs:244-283 | the copy loop and the closes read and write exactly the passes' bytes |
| ImageTrace.EventOrigin | cimfs/src/image.rs:92-287 | every event of a create_file trace is a source query, the one CimCreateFile right after the queries, or a copy-loop or close event after a successful CimCreateFile |
| ImageTrace.ReadsAreWrittenBack | cimfs/src/image.rs:250-272 | each successful read asks for the whole buffer and is followed at once by a write of exactly those bytes to the stream CimCreateFile returned |
| ImageTrace.CopyReadsWrittenBack | cimfs/src/image.rs:250-283 | the same as ReadsAreWrittenBack for the copy loop and the closes alone |
| ImageTrace.WrittenEqualsRead | cimfs/src/image.rs:244-277 | the bytes handed to CimWriteStream are exactly the bytes ReadFile returned, in order |
| ImageTrace.TailCarriesNoBytes | cimfs/src/image.rs:250-283 | a trace with no successful read and no write carries no data, as the closes after the loop |
| ImageTrace.NoReadAfterEmptyRead | cimfs/src/image.rs:262-264 | no read follows a read that returned nothing |
| ImageTrace.StreamUseFollowsCreate | cimfs/src/image.rs:227-283 | nothing is written to or closed on a stream that a successful CimCreateFile did not return |
| ImageTrace.InvalidDescriptorAborts | cimfs/src/image.rs:181-203 | an invalid security descriptor ends create_file with STATUS_UNSUCCESSFUL before any image call |
| ImageTrace.SuccessClosesStreamThenFile | cimfs/src/image.rs:262-286 | on success the trace ends with a zero-byte write, CimCloseStream of the stream, then a successful CloseHandle of the source |
| ImageTrace.ClosesComeLast | cimfs/src/image.rs:279-283 | the stream and the source handle are each closed at most once, as the last two calls |
| ImageTrace.FailureLeavesHandlesOpen | cimfs/src/image.rs:112-283 | a failure anywhere but the final CloseHandle closes neither the stream nor the source handle |
| ImageTrace.MetadataCaptured | cimfs/src/image.rs:122-242 | CimCreateFile gets this image's handle, the relative path, the attributes and four timestamps, size 0 for a directory and the queried size otherwise, reparse data exactly for a reparse point, and no security descriptor or extended attributes; it comes only after a valid descriptor |
| ImageTrace.QueriesFollowAttributes | cimfs/src/image.rs:134-179 | the size is queried only for a non-directory, and the reparse data only for a reparse point, with FSCTL_GET_REPARSE_POINT and a 16 KiB buffer |
| ImageTrace.CreationsAppend | cimfs/src/image.rs:227-242 | the CimCreateFile calls of two traces in a row are the first's followed by the second's |
| ImageTrace.NoCreations | cimfs/src/image.rs:244-283 | a trace without a CimCreateFile call, as the copy loop and the closes, creates nothing |
| ImageTrace.CopyCalls | cimfs/src/image.rs:244-283 | the copy loop and the closes only read, write and close |
| ImageTrace.OnlyFileCalls | cimfs/src/image.rs:92-287 | create_file never creates, commits, mounts or dismounts an image, and prints nothing |
| ImageTrace.CreatesOnce | cimfs/src/image.rs:227-242 | CimCreateFile is called once, on this image and path, exactly when the queries produced metadata, and create_file succeeds only after that call |
| Builds.AddedBySnoc | cimfs/src/bin/cimutil.rs:210-216 | adding the next object extends the record of objects added |
| Builds.AddObjectTo | cimfs/src/bin/cimutil.rs:210-216 | the loop body (get_relative_path, get_src_path, create_file) makes the calls AddObject describes for the object's key |
| Builds.AddNext | cimfs/src/bin/cimutil.rs:210-216 | one pass adds the next object and extends the chain of runs by what adding it did |
| Builds.AddAll | cimfs/src/bin/cimutil.rs:210-216 | the objects are added in order up to the first that fails, and the calls and result are the chain of their runs |
| Builds.Build | cimfs/src/bin/cimutil.rs:206-219 | Image::create, every object in order, then commit: the calls and the result are BuildRun of the replies, which fit the objects |
| BuildTrace.AddObjectCalls | cimfs/src/bin/cimutil.rs:210-216 | adding one object calls only what create_file may call, calls CimCreateFile at most once and only for its own target, succeeds only after that call, and writes exactly the bytes it read |
| BuildTrace.AddedRuns | cimfs/src/bin/cimutil.rs:210-216 | AddObjectCalls holds for every object a build added |
| BuildTrace.ChainOk | cimfs/src/bin/cimutil.rs:210-216 | the chained runs succeed exactly when each run does |
| BuildTrace.ChainFileCalls | cimfs/src/bin/cimutil.rs:210-216 | chained runs make only create_file calls |
| BuildTrace.ChainCreations | cimfs/src/bin/cimutil.rs:210-216 | chained runs call CimCreateFile for a prefix of the targets in order, and for all of them when every run succeeded |
| BuildTrace.ChainCopies | cimfs/src/bin/cimutil.rs:210-216 | chained runs write exactly the bytes they read |
| BuildTrace.AllReached | cimfs/src/bin/cimutil.rs:210-216 | the runs of a created image are those of the objects reached, and every object was reached when all additions succeeded |
| BuildTrace.BuildOrder | cimfs/src/bin/cimutil.rs:206-219 | CimCreateImage comes first with the root, the image forked from and the name; every later call is a create_file call except a final CimCommitImage on the returned handle, made exactly when the image was created and every object added |
| BuildTrace.BuildResult | cimfs/src/bin/cimutil.rs:206-219 | the build is Ok exactly when the image was created, every create_file succeeded and the commit succeeded |
| BuildTrace.BuildCreations | cimfs/src/bin/cimutil.rs:210-216 | CimCreateFile is called on the new handle for the objects in order, each at its own relative path, and for every object when the build succeeds |
| BuildTrace.AddedCreations | cimfs/src/bin/cimutil.rs:210-216 | the objects added are created at their targets in order, all of them when every addition succeeded |
| BuildTrace.TargetsPrefix | cimfs/src/bin/cimutil.rs:210-216 | the targets of a prefix of the objects are that prefix of the targets |
| BuildTrace.BuildCopies | cimfs/src/bin/cimutil.rs:210-216 | every byte a build writes to the image is a byte it read from a source file, in order |
| VolumeIds.TrimStartMatches | cimfs/src/bin/cimutil.rs:279 | the result is no longer than the input and does not start with the pattern |
| VolumeIds.TrimEndMatches | cimfs/src/bin/cimutil.rs:279 | the result is no longer than the input and does not end with the pattern |
| VolumeIds.TrimStartOfRepeat | cimfs/src/bin/cimutil.rs:279 | any number of leading copies of the pattern are stripped, leaving the rest |
| VolumeIds.TrimEndOfRepeat | cimfs/src/bin/cimutil.rs:279 | any number of trailing copies of the pattern are stripped, leaving the rest |
| VolumeIds.TrimVolumeIdStripsRuns | cimfs/src/bin/cimutil.rs:279 | leading runs of `Volume{`, then of `{`, and trailing runs of `}` around brace-free GUID text are all stripped, leaving the text |
| VolumeIds.DismountFormsAgree | cimfs/src/bin/cimutil.rs:279 | `Volume{g}`, `{g}` and `g` all normalise to `g` |
| VolumeIds.VolumePath | cimfs/src/bin/cimutil.rs:269 | the printed path is `\\?\`, then `Volume{`, the GUID text and `}` |
| VolumeIds.PrintedPathDismounts | cimfs/src/bin/cimutil.rs:269-279 | the printed path without its `\\?\` prefix normalises back to the GUID text |
| CimUtil.RunBuild | cimfs/src/bin/cimutil.rs:203-219 | parse the objects against the filesystem of the command's start, then build against the filesystem as it is later: the calls and result are BuildCommandRun of the replies, which fit the later filesystem |
| CimUtil.RunMount | cimfs/src/bin/cimutil.rs:263-276 | mount, print the volume path, then set the mount point: the calls and result are MountRun |
| CimUtil.RunDismount | cimfs/src/bin/cimutil.rs:278-283 | normalise and parse the id, then CimDismountImage: the calls and result are DismountRun |
| CimUtil.RunCommand | cimfs/src/bin/cimutil.rs:172-286 | the root check (skipped for Dismount), the name checks, then the command, with objects added against the later filesystem: the calls and result are CommandRun |
| CimUtil.NoCallUnlessAccepted | cimfs/src/bin/cimutil.rs:177-282 | a command makes no call exactly when it is rejected (root, empty name, unresolved object, unparsable id), and a rejected command fails with E_INVALIDARG |
| CimUtil.BuildCommandCalls | cimfs/src/bin/cimutil.rs:194-256 | an accepted new or fork calls CimCreateImage first on the canonical root; objects are created in argument order at their resolved paths, all of them on success, whatever the later filesystem; commit only as the last call; the bytes written are the bytes read |
| CimUtil.MountCalls | cimfs/src/bin/cimutil.rs:257-277 | an accepted mount calls MountImage first; the path is printed exactly when that succeeded, before any mount point is set; a mount-point failure is the result but nothing is dismounted |
| CimUtil.PrintedPathDismountsMounted | cimfs/src/bin/cimutil.rs:269-282 | dismounting the printed path (without `\\?\`) calls CimDismountImage on the GUID that was mounted, given GUID text without braces that parses back |
| CimUtil.DismountFormsSame | cimfs/src/bin/cimutil.rs:278-283 | the three documented forms of the dismount argument make the same calls with the same result |
| CimUtil.SameVolumeSameRun | cimfs/src/bin/cimutil.rs:279-282 | two arguments that normalise to the same id make the same calls with the same result |

## Left out

- Windows and the CimFS engine: each call is a `Host` method that logs its arguments and a reply the host chooses. What the calls do inside Windows is not modelled.
- `Image::mount` and `Image::mount_volume` are not part of this model's source files. They are the `MountImage` and `MountVolume` host events.
- Reading a GUID from text (`GUID::try_from`) and printing one (`{:?}`) are library code. They are the function parameters `parse` and `show`.
- Path strings are not parsed into components. A source path given as an argument is the component sequence `PathBuf::components` yields for it.
- Objects.AncestorSrc: the ancestor source is the root accumulator's components followed by the ancestor's names. Rust's `src.join(a)` builds a new path string that is parsed again, so it can differ. For `\\?\C:\a\.\b\c` the `.` is kept as a component (the path is verbatim), the accumulator is `\.`, and the model's depth-1 ancestor source is `[RootDir, CurDir, Normal a]`, where Rust's `\.\a` has the components `[RootDir, Normal a]`.
- Objects.Resolved: `relative_path.join(p)` also parses its argument again. A verbatim payload that contains `/` (which a verbatim prefix does not split) becomes several names once joined in Rust; the model keeps it as one name.
- Builds.AddObjectTo: `create_file` takes `impl AsRef<str>`, but the front end passes it a `&PathBuf` (cimfs/src/bin/cimutil.rs:215 and 251), which has no such conversion. The model hands the relative path over unchanged.
- `canonicalize` and `is_file` are answered by the `FileSystem` value.
- OsStr ordering is modelled as ordering by character code.
- Objects.Object.ResolveRelativePath: the front end calls `resolve_relative_path()` with no argument (cimfs/src/bin/cimutil.rs:295), which does not match the declared signature. `parse_ancestors` is therefore a parameter of `ParseObjectsFromArgs` and of the commands.
- CimUtil.RunBuild: the ancestor set is computed and then discarded, as in the source. Ancestors are never added to the image.
- Images.Image.CreateFile: leaked handles are modelled only as missing close events. The `?` early returns skip `CimCloseStream` and `CloseHandle`, and nothing models what a leaked handle costs.
- Images.Image.Commit does not consume or null the handle, as in the source.
- Images.Image.CreateFile runs the copy loop for directories too, as the source does.
- Images.ExamineFile: a failed security query is an error, as in the source. It is not skipped.
- Images.ExamineFile keeps only the reparse bytes the host returns. The buffer's `set_len`, its freeze and `drop_in_place` are pointer details that are not modelled.
- Images.Image.Create: the `HSTRING` for the existing image's name (cimfs/src/image.rs:64-68) is a temporary, freed before `CimCreateImage` reads the pointer, so every fork passes a freed pointer. The model passes the name itself.
- Images.CopyChunks: each opened file holds finitely many bytes (the host's `unread` count), so the loop always ends. A source that grows while it is copied, on which the loop at cimfs/src/image.rs:248-277 need not end, is not modelled.
- CimUtil.RunBuild: the filesystem is one snapshot for the whole build. A source that changes between one object's `get_src_path` and the next is not modelled, nor a change between `get_src_path` and the source's `CreateFileW`, whose reply the host chooses freely.
- Images.CopyChunks: the running `total` is a u32 that wraps. A debug build would panic on overflow instead, and that panic is not modelled. `total` only feeds a trace message, so no contract mentions it.
- Builds.Build: when an object fails, its replies cover only the objects that were reached. Later objects make no calls and have no replies.
- Errors are reduced to their HRESULT code. Message texts are not modelled.
- Tracing, logging, `enable_logging`, `println!` formatting beyond the printed volume path, and argument parsing by clap are not modelled.
- `setup_privileges` and the OS calls in `toggle_privilege` are not modelled: OpenProcessToken, LookupPrivilegeValueW and AdjustTokenPrivileges. Only the request record and the `previously_enabled` test are.
- cimfs-sys/build.rs generates bindings at build time and is not part of this model.
